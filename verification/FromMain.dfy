/** The decompiler's walk from main: a queue of addresses, the addresses visited, and a memo of the
    classes whose methods have been queued. */
module FromMain {

  /** Decompiling one range: a failure (or a panic) before anything is emitted, or the call targets and
      the classes of the pool loads, up to a panic after the emission if there is one. */
  datatype Build = Failed | Built(targets: seq<int>, classRefs: seq<int>, panicked: bool)

  /** The program as the walk sees it: `ranges` gives a Code reference for every function address. */
  datatype Program = Program(
    main: int,
    ranges: map<int, int>,
    codeUrl: int -> string,
    classUrl: int -> string,
    isFrameworkUrl: string -> bool,
    build: int -> Build,
    methodsOf: map<int, seq<int>>)
  {
    predicate IsFramework(va: int)
      requires va in ranges
    {
      isFrameworkUrl(codeUrl(ranges[va]))
    }

    /** In range, not framework code, and built. */
    predicate Expands(va: int) {
      va in ranges && !IsFramework(va) && build(va).Built?
    }

    /** A class whose methods are queued when it is first touched. */
    predicate AppClass(c: int) {
      c >= 0 && !isFrameworkUrl(classUrl(c))
    }

    function Methods(c: int): seq<int> {
      if c in methodsOf then methodsOf[c] else []
    }

    /** t is a method of one of the app classes among cs. */
    predicate Touches(cs: seq<int>, t: int) {
      exists c :: c in cs && AppClass(c) && t in Methods(c)
    }

    /** Where a function leads: its call targets and the methods of the app classes it touches. */
    predicate Edge(va: int, t: int) {
      && Expands(va)
      && (t in build(va).targets || Touches(build(va).classRefs, t))
    }

    /** Every address the walk can ever queue. */
    function Universe(): set<int> {
      {main}
      + (set va, t | va in ranges && build(va).Built? && t in build(va).targets :: t)
      + (set c, t | c in methodsOf && t in methodsOf[c] :: t)
    }
  }

  datatype Walk = Walk(
    queue: seq<int>, visited: set<int>, touched: set<int>, emitted: seq<int>,
    skipped: nat, frameworkSkipped: nat, unknownLibrary: nat, classTouched: nat)

  function Start(g: Program): Walk {
    Walk([g.main], {}, {}, [], 0, 0, 0, 0)
  }

  // ---------- one address ----------

  /** The addresses of vs not yet visited, in order. */
  function Unvisited(vs: seq<int>, visited: set<int>): (r: seq<int>)
    ensures forall t :: t in r <==> t in vs && t !in visited
  {
    if vs == [] then []
    else (if vs[0] in visited then [] else [vs[0]]) + Unvisited(vs[1..], visited)
  }

  function Push(w: Walk, vs: seq<int>): Walk {
    w.(queue := w.queue + Unvisited(vs, w.visited))
  }

  /** A pool load of a class: its methods are queued the first time only. */
  function Touch(g: Program, w: Walk, c: int): Walk {
    if c < 0 || c in w.touched then w
    else
      var w' := w.(touched := w.touched + {c});
      if g.AppClass(c) then Push(w'.(classTouched := w'.classTouched + 1), g.Methods(c)) else w'
  }

  function TouchAll(g: Program, w: Walk, cs: seq<int>): Walk
    decreases |cs|
  {
    if cs == [] then w else TouchAll(g, Touch(g, w, cs[0]), cs[1..])
  }

  function Expand(g: Program, w: Walk, va: int, b: Build): Walk
    requires b.Built?
  {
    var w' := TouchAll(g, Push(w.(emitted := w.emitted + [va]), b.targets), b.classRefs);
    if b.panicked then w'.(skipped := w'.skipped + 1) else w'
  }

  /** Taking the first address off the queue. */
  function Step(g: Program, w: Walk): Walk
    requires w.queue != []
  {
    var va := w.queue[0];
    var w1 := w.(queue := w.queue[1..]);
    if va in w.visited then w1
    else
      var w2 := w1.(visited := w.visited + {va});
      if va !in g.ranges then w2
      else if g.IsFramework(va) then w2.(frameworkSkipped := w2.frameworkSkipped + 1)
      else
        var w3 := if g.codeUrl(g.ranges[va]) == "" then w2.(unknownLibrary := w2.unknownLibrary + 1) else w2;
        match g.build(va)
        case Failed => w3.(skipped := w3.skipped + 1)
        case Built(_, _, _) => Expand(g, w3, va, g.build(va))
  }

  /** Touching classes marks them, extends the queue and changes nothing else but the class count. */
  lemma {:induction false} TouchAllMarks(g: Program, w: Walk, cs: seq<int>)
    ensures var w' := TouchAll(g, w, cs);
            && w' == w.(queue := w'.queue, touched := w'.touched, classTouched := w'.classTouched)
            && w.queue <= w'.queue
            && forall c :: c in w'.touched <==> c in w.touched || (c in cs && c >= 0)
    decreases |cs|
  {
    hide Unvisited, Program.AppClass;
    if cs != [] {
      TouchAllMarks(g, Touch(g, w, cs[0]), cs[1..]);
    }
  }

  /** Only methods of app classes in the list are queued. */
  lemma {:induction false} TouchAllQueues(g: Program, w: Walk, cs: seq<int>, t: int)
    requires t in TouchAll(g, w, cs).queue && t !in w.queue
    ensures g.Touches(cs, t)
    decreases |cs|
  {
    if cs != [] {
      var w1 := Touch(g, w, cs[0]);
      if t in w1.queue {
        assert cs[0] in cs && t in g.Methods(cs[0]);
      } else {
        TouchAllQueues(g, w1, cs[1..], t);
        var c :| c in cs[1..] && g.AppClass(c) && t in g.Methods(c);
        assert c in cs;
      }
    }
  }

  /** Of an app class touched for the first time, every method is visited or queued. */
  lemma {:induction false} TouchAllQueuesMethods(g: Program, w: Walk, cs: seq<int>, c: int, t: int)
    requires c in TouchAll(g, w, cs).touched && c !in w.touched && g.AppClass(c) && t in g.Methods(c)
    ensures t in w.visited || t in TouchAll(g, w, cs).queue
    decreases |cs|
  {
    if cs != [] {
      var w1 := Touch(g, w, cs[0]);
      TouchAllMarks(g, w1, cs[1..]);
      if c in w1.touched {
        assert t in w.visited || t in w1.queue;
      } else {
        TouchAllQueuesMethods(g, w1, cs[1..], c, t);
      }
    }
  }

  // ---------- the loop ----------

  ghost predicate InUniverse(g: Program, w: Walk) {
    w.visited <= g.Universe() && forall t :: t in w.queue ==> t in g.Universe()
  }

  /** What one step does to queue and visited set. */
  lemma StepMoves(g: Program, w: Walk)
    requires w.queue != []
    ensures var va, w' := w.queue[0], Step(g, w);
            && w'.visited == w.visited + {va}
            && w.queue[1..] <= w'.queue
            && (va in w.visited ==> w' == w.(queue := w.queue[1..]))
            && (va !in w.visited && !g.Expands(va) ==>
                  w'.queue == w.queue[1..] && w'.touched == w.touched && w'.emitted == w.emitted)
            && (va !in w.visited && g.Expands(va) ==> w'.emitted == w.emitted + [va])
            && forall t :: t in w'.queue ==> t in w.queue[1..] || (va !in w.visited && g.Edge(va, t))
  {
    hide TouchAll, Program.AppClass, Unvisited;
    var va, w' := w.queue[0], Step(g, w);
    if va !in w.visited && g.Expands(va) {
      var b := g.build(va);
      var w3 := Push(BeforeExpand(g, w).(emitted := w.emitted + [va]), b.targets);
      TouchAllMarks(g, w3, b.classRefs);
      forall t | t in w'.queue ensures t in w.queue[1..] || g.Edge(va, t) {
        if t !in w3.queue { TouchAllQueues(g, w3, b.classRefs, t); }
      }
    }
  }

  /** The walk when the first address has been marked and is about to be expanded. */
  function BeforeExpand(g: Program, w: Walk): Walk
    requires w.queue != []
  {
    var va := w.queue[0];
    var w2 := w.(queue := w.queue[1..], visited := w.visited + {va});
    if va in g.ranges && g.codeUrl(g.ranges[va]) == "" then w2.(unknownLibrary := w2.unknownLibrary + 1) else w2
  }

  lemma EdgeInUniverse(g: Program, va: int, t: int)
    requires g.Edge(va, t)
    ensures t in g.Universe()
  {
    if t !in g.build(va).targets {
      var c :| c in g.build(va).classRefs && g.AppClass(c) && t in g.Methods(c);
      assert c in g.methodsOf && t in g.methodsOf[c];
    } else {
      assert va in g.ranges && g.build(va).Built?;
    }
  }

  lemma StepStaysInUniverse(g: Program, w: Walk)
    requires w.queue != [] && InUniverse(g, w)
    ensures InUniverse(g, Step(g, w))
  {
    hide Step, Program.Universe, Program.Edge;
    StepMoves(g, w);
    var va, w' := w.queue[0], Step(g, w);
    forall t | t in w'.queue ensures t in g.Universe() {
      if t !in w.queue[1..] { EdgeInUniverse(g, va, t); }
    }
  }

  /** Addresses left to visit, then queue length: duplicates in the queue cannot keep it going. */
  lemma StepDecreases(g: Program, w: Walk)
    requires w.queue != [] && InUniverse(g, w)
    ensures var w' := Step(g, w);
            || |g.Universe() - w'.visited| < |g.Universe() - w.visited|
            || (w'.visited == w.visited && |w'.queue| < |w.queue|)
  {
    hide Step, Program.Universe, Program.Edge;
    StepMoves(g, w);
    var va, w' := w.queue[0], Step(g, w);
    if va !in w.visited {
      assert g.Universe() - w.visited == (g.Universe() - w'.visited) + {va};
    } else {
      assert w'.visited == w.visited;
    }
  }

  predicate Capped(max: int, w: Walk) {
    max > 0 && |w.emitted| >= max
  }

  /** The whole walk; max is the cap on emitted functions, none if not positive. */
  function RunFrom(g: Program, max: int, w: Walk): Walk
    requires InUniverse(g, w)
    decreases |g.Universe() - w.visited|, |w.queue|
  {
    if w.queue == [] || Capped(max, w) then w
    else
      StepStaysInUniverse(g, w);
      StepDecreases(g, w);
      RunFrom(g, max, Step(g, w))
  }

  lemma StartInUniverse(g: Program)
    ensures InUniverse(g, Start(g))
  {
  }

  function Run(g: Program, max: int): Walk {
    StartInUniverse(g);
    RunFrom(g, max, Start(g))
  }

  lemma AssocUnvisited(r: seq<int>, v: int, visited: set<int>, vs: seq<int>)
    ensures r + Unvisited([v] + vs, visited)
         == (if v in visited then r else r + [v]) + Unvisited(vs, visited)
  {
    assert ([v] + vs)[1..] == vs;
  }

  method PushUnvisited(queue: seq<int>, visited: set<int>, vs: seq<int>) returns (r: seq<int>)
    ensures r == queue + Unvisited(vs, visited)
  {
    r := queue;
    for i := 0 to |vs|
      invariant queue + Unvisited(vs, visited) == r + Unvisited(vs[i..], visited)
    {
      assert vs[i..][0] == vs[i] && vs[i..][1..] == vs[i + 1..];
      AssocUnvisited(r, vs[i], visited, vs[i + 1..]);
      if vs[i] !in visited { r := r + [vs[i]]; }
    }
  }

  method TouchClasses(g: Program, w: Walk, cs: seq<int>) returns (r: Walk)
    ensures r == TouchAll(g, w, cs)
  {
    var queue, touched, classTouched := w.queue, w.touched, w.classTouched;
    for i := 0 to |cs|
      invariant TouchAll(g, w, cs)
             == TouchAll(g, w.(queue := queue, touched := touched, classTouched := classTouched), cs[i..])
    {
      var c := cs[i];
      assert cs[i..][0] == c && cs[i..][1..] == cs[i + 1..];
      if c < 0 || c in touched { continue; }
      touched := touched + {c};
      if g.isFrameworkUrl(g.classUrl(c)) { continue; }
      classTouched := classTouched + 1;
      queue := PushUnvisited(queue, w.visited, g.Methods(c));
    }
    r := w.(queue := queue, touched := touched, classTouched := classTouched);
  }

  /** One turn of the loop. */
  lemma RunTurn(g: Program, max: int, w: Walk)
    requires InUniverse(g, w) && w.queue != [] && !Capped(max, w)
    ensures InUniverse(g, Step(g, w)) && RunFrom(g, max, w) == RunFrom(g, max, Step(g, w))
    ensures |g.Universe() - Step(g, w).visited| < |g.Universe() - w.visited|
         || (Step(g, w).visited == w.visited && |Step(g, w).queue| < |w.queue|)
  {
    hide Step;
    StepStaysInUniverse(g, w);
    StepDecreases(g, w);
  }

  /** The body of the loop. */
  method Visit(g: Program, before: Walk) returns (w: Walk)
    requires before.queue != []
    ensures w == Step(g, before)
  {
    hide TouchAll, Unvisited;
    var va := before.queue[0];
    w := before.(queue := before.queue[1..]);
    if va in w.visited { return; }
    w := w.(visited := w.visited + {va});
    if va !in g.ranges { return; }
    var url := g.codeUrl(g.ranges[va]);
    if g.isFrameworkUrl(url) {
      w := w.(frameworkSkipped := w.frameworkSkipped + 1);
      return;
    }
    if url == "" { w := w.(unknownLibrary := w.unknownLibrary + 1); }
    match g.build(va) {
      case Failed =>
        w := w.(skipped := w.skipped + 1);
      case Built(targets, classRefs, panicked) =>
        w := w.(emitted := w.emitted + [va]);
        var queue := PushUnvisited(w.queue, w.visited, targets);
        w := TouchClasses(g, w.(queue := queue), classRefs);
        if panicked { w := w.(skipped := w.skipped + 1); }
    }
  }

  method RunFromMain(g: Program, max: int) returns (w: Walk)
    ensures w == Run(g, max)
  {
    hide Step, Program.Universe, InUniverse, RunFrom;
    StartInUniverse(g);
    w := Start(g);
    while w.queue != []
      invariant InUniverse(g, w) && Run(g, max) == RunFrom(g, max, w)
      decreases |g.Universe() - w.visited|, |w.queue|
    {
      if Capped(max, w) { break; }
      RunTurn(g, max, w);
      w := Visit(g, w);
    }
    RunStops(g, max, w);
  }

  lemma RunStops(g: Program, max: int, w: Walk)
    requires InUniverse(g, w) && (w.queue == [] || Capped(max, w))
    ensures RunFrom(g, max, w) == w
  {
  }

  // ---------- reachability ----------

  ghost predicate Closed(g: Program, s: set<int>) {
    forall u, t :: u in s && g.Edge(u, t) ==> t in s
  }

  /** The addresses a function leads to, as a set. */
  function Successors(g: Program, va: int): (r: set<int>)
    ensures forall t :: t in r <==> g.Edge(va, t)
  {
    if !g.Expands(va) then {}
    else
      var b := g.build(va);
      var r := (set t | t in b.targets) + (set c, t | c in b.classRefs && g.AppClass(c) && t in g.Methods(c) :: t);
      assert forall t :: t in r <==> g.Edge(va, t);
      r
  }

  /** The addresses at distance at most k from main. */
  function Level(g: Program, k: nat): set<int> {
    if k == 0 then {g.main} else Level(g, k - 1) + set u, t | u in Level(g, k - 1) && t in Successors(g, u) :: t
  }

  lemma LevelStep(g: Program, k: nat, t: int)
    ensures t in Level(g, k + 1) <==> t in Level(g, k) || exists u :: u in Level(g, k) && g.Edge(u, t)
  {
    hide Successors, Program.Edge;
    if u :| u in Level(g, k) && g.Edge(u, t) {
      assert t in Successors(g, u);
    }
    if t in Level(g, k + 1) && t !in Level(g, k) {
      var u :| u in Level(g, k) && t in Successors(g, u);
    }
  }

  lemma {:induction false} LevelGrows(g: Program, j: nat, k: nat)
    requires j <= k
    ensures Level(g, j) <= Level(g, k)
  {
    hide Successors;
    if j < k { LevelGrows(g, j, k - 1); }
  }

  lemma {:induction false} LevelInClosed(g: Program, k: nat, s: set<int>)
    requires g.main in s && Closed(g, s)
    ensures Level(g, k) <= s
  {
    hide Program.Edge;
    if k > 0 {
      LevelInClosed(g, k - 1, s);
      forall t | t in Level(g, k) ensures t in s { LevelStep(g, k - 1, t); }
    }
  }

  /** One emission is at most as far from main as another: every level with the later has the earlier. */
  ghost predicate NoFarther(g: Program, a: int, b: int) {
    forall k :: b in Level(g, k) ==> a in Level(g, k)
  }

  /** What the walk keeps.  The first c queued addresses are at distance at most d, the rest at most
      d + 1; everything nearer than d is visited; nothing a visited function leads to is lost, the
      memo notwithstanding; the emitted functions are the visited ones that expand, each once, in
      order of distance. */
  ghost predicate Keeps(g: Program, w: Walk, d: nat, c: nat) {
    && c <= |w.queue|
    && (forall i :: 0 <= i < c ==> w.queue[i] in Level(g, d))
    && (forall t :: t in w.queue ==> t in Level(g, d + 1))
    && w.visited <= Level(g, d)
    && (d > 0 ==> Level(g, d - 1) <= w.visited)
    && (forall t :: t in Level(g, d) ==> t in w.visited || t in w.queue[..c])
    && NothingLost(g, w)
    && InOrder(g, w)
  }

  ghost predicate NothingLost(g: Program, w: Walk) {
    && (forall u, t :: u in w.visited && g.Expands(u) && t in g.build(u).targets ==> t in w.visited || t in w.queue)
    && (forall u, c :: u in w.visited && g.Expands(u) && c in g.build(u).classRefs && c >= 0 ==> c in w.touched)
    && (forall c, t :: c in w.touched && g.AppClass(c) && t in g.Methods(c) ==> t in w.visited || t in w.queue)
  }

  ghost predicate InOrder(g: Program, w: Walk) {
    && (forall va :: va in w.emitted <==> va in w.visited && g.Expands(va))
    && (forall i, j :: 0 <= i < j < |w.emitted| ==> w.emitted[i] != w.emitted[j])
    && (forall i, j :: 0 <= i < j < |w.emitted| ==> NoFarther(g, w.emitted[i], w.emitted[j]))
  }

  lemma NothingLostStep(g: Program, w: Walk)
    requires w.queue != [] && NothingLost(g, w)
    ensures NothingLost(g, Step(g, w))
  {
    hide Step, TouchAll, Unvisited, Program.AppClass, Program.Expands, Program.Methods;
    var va, w' := w.queue[0], Step(g, w);
    assert forall t :: t in w.queue ==> t == va || t in w.queue[1..];
    StepMoves(g, w);
    assert forall t :: t in w.visited || t in w.queue ==> t in w'.visited || t in w'.queue;
    if va !in w.visited && g.Expands(va) {
      ExpandLosesNothing(g, w);
      forall c, t | c in w'.touched && g.AppClass(c) && t in g.Methods(c) ensures t in w'.visited || t in w'.queue {
        assert c in w.touched ==> t in w.visited || t in w.queue;
      }
    }
  }

  lemma ExpandLosesNothing(g: Program, w: Walk)
    requires w.queue != [] && w.queue[0] !in w.visited && g.Expands(w.queue[0])
    ensures var va, w' := w.queue[0], Step(g, w);
            var b := g.build(va);
            && (forall t :: t in b.targets ==> t in w'.visited || t in w'.queue)
            && (forall c :: c in b.classRefs && c >= 0 ==> c in w'.touched)
            && (forall c :: c in w.touched ==> c in w'.touched)
            && (forall c, t :: c in w'.touched && c !in w.touched && g.AppClass(c) && t in g.Methods(c) ==>
                  t in w'.visited || t in w'.queue)
  {
    hide TouchAll, Program.AppClass;
    var va, w' := w.queue[0], Step(g, w);
    var b := g.build(va);
    var w3 := Push(BeforeExpand(g, w).(emitted := w.emitted + [va]), b.targets);
    TouchAllMarks(g, w3, b.classRefs);
    assert forall t :: t in w3.queue ==> t in w'.queue;
    forall t | t in b.targets ensures t in w'.visited || t in w'.queue {
      assert t in w3.visited || t in Unvisited(b.targets, w3.visited);
    }
    forall c, t | c in w'.touched && c !in w.touched && g.AppClass(c) && t in g.Methods(c)
      ensures t in w'.visited || t in w'.queue
    {
      TouchAllQueuesMethods(g, w3, b.classRefs, c, t);
    }
  }

  /** What is emitted before a step is not farther than what the step emits. */
  lemma EarlierIsNoFarther(g: Program, w: Walk, d: nat, u: int, va: int)
    requires u in w.visited && va !in w.visited
    requires w.visited <= Level(g, d) && (d > 0 ==> Level(g, d - 1) <= w.visited)
    ensures NoFarther(g, u, va)
  {
    hide Level;
    forall k: nat | va in Level(g, k) ensures u in Level(g, k) {
      if k < d {
        LevelGrows(g, k, d - 1);
      } else {
        LevelGrows(g, d, k);
      }
    }
  }

  lemma InOrderStep(g: Program, w: Walk, d: nat)
    requires w.queue != [] && InOrder(g, w)
    requires w.visited <= Level(g, d) && (d > 0 ==> Level(g, d - 1) <= w.visited)
    ensures InOrder(g, Step(g, w))
  {
    hide Step, Level, NoFarther, Program.Edge, Program.Expands;
    StepMoves(g, w);
    var va := w.queue[0];
    if va !in w.visited && g.Expands(va) {
      forall i | 0 <= i < |w.emitted| ensures NoFarther(g, w.emitted[i], va) && w.emitted[i] != va {
        assert w.emitted[i] in w.emitted;
        EarlierIsNoFarther(g, w, d, w.emitted[i], va);
      }
    }
  }

  lemma KeepsStep(g: Program, w: Walk, d: nat, c: nat)
    requires Keeps(g, w, d, c) && c > 0
    ensures Keeps(g, Step(g, w), d, c - 1)
  {
    hide Step, Level, Program.Edge, Program.Expands, NothingLost, InOrder;
    StepMoves(g, w);
    NothingLostStep(g, w);
    InOrderStep(g, w, d);
    var va, w' := w.queue[0], Step(g, w);
    FrontMoves(w.queue, w'.queue, c);
    forall t | t in w'.queue ensures t in Level(g, d + 1) {
      if t !in w.queue { LevelStep(g, d, t); }
    }
  }

  lemma FrontMoves(queue: seq<int>, next: seq<int>, c: nat)
    requires 0 < c <= |queue| && queue[1..] <= next
    ensures next[..c - 1] == queue[1..c] && queue[..c] == [queue[0]] + queue[1..c]
  {
    assert next[..|queue| - 1] == queue[1..];
    assert next[..c - 1] == next[..|queue| - 1][..c - 1] == queue[1..][..c - 1];
  }

  /** When the addresses at distance d are used up, those queued are at distance d + 1. */
  lemma KeepsNextLevel(g: Program, w: Walk, d: nat)
    requires Keeps(g, w, d, 0)
    ensures Keeps(g, w, d + 1, |w.queue|)
  {
    hide Level, Program.Expands, Program.AppClass, InOrder, Program.Edge;
    QueueIsNear(g, w.queue, d + 1);
    LevelGrows(g, d, d + 1);
    LevelGrows(g, d + 1, d + 2);
    assert w.queue[..|w.queue|] == w.queue && w.queue[..0] == [];
    forall t | t in Level(g, d + 1) ensures t in w.visited || t in w.queue {
      LevelStep(g, d, t);
      if t !in Level(g, d) {
        var u :| u in Level(g, d) && g.Edge(u, t);
        VisitedLoses(g, w, u, t);
      }
    }
    forall t | t in Level(g, d) ensures t in w.visited { assert t !in w.queue[..0]; }
  }

  lemma QueueIsNear(g: Program, queue: seq<int>, k: nat)
    requires forall t :: t in queue ==> t in Level(g, k)
    ensures forall i :: 0 <= i < |queue| ==> queue[i] in Level(g, k)
  {
    forall i | 0 <= i < |queue| ensures queue[i] in Level(g, k) { var t := queue[i]; assert t in queue; assert t in Level(g, k); }
  }

  lemma VisitedLoses(g: Program, w: Walk, u: int, t: int)
    requires NothingLost(g, w) && u in w.visited && g.Edge(u, t)
    ensures t in w.visited || t in w.queue
  {
    if t !in g.build(u).targets {
      var c :| c in g.build(u).classRefs && g.AppClass(c) && t in g.Methods(c);
    }
  }

  lemma StartKeeps(g: Program)
    ensures Keeps(g, Start(g), 0, 1)
  {
    assert Start(g).queue[..1] == [g.main];
    LevelGrows(g, 0, 1);
  }

  lemma KeepsTurn(g: Program, w: Walk, d: nat, c: nat) returns (d': nat, c': nat)
    requires w.queue != [] && Keeps(g, w, d, c)
    ensures Keeps(g, Step(g, w), d', c')
  {
    hide Step, Keeps;
    d', c' := d, c;
    if c == 0 {
      KeepsNextLevel(g, w, d);
      d', c' := d + 1, |w.queue|;
    }
    KeepsStep(g, w, d', c');
    c' := c' - 1;
  }

  /** The invariant holds wherever the walk stops, capped or not. */
  lemma {:induction false} RunKeeps(g: Program, max: int, w: Walk, d: nat, c: nat) returns (d': nat, c': nat)
    requires InUniverse(g, w) && Keeps(g, w, d, c)
    ensures Keeps(g, RunFrom(g, max, w), d', c')
    ensures RunFrom(g, max, w).queue == [] || Capped(max, RunFrom(g, max, w))
    decreases |g.Universe() - w.visited|, |w.queue|
  {
    hide Step, Keeps, InUniverse, RunFrom, Program.Universe;
    if w.queue != [] && !Capped(max, w) {
      RunTurn(g, max, w);
      d', c' := KeepsTurn(g, w, d, c);
      d', c' := RunKeeps(g, max, Step(g, w), d', c');
    } else {
      RunStops(g, max, w);
      d', c' := d, c;
    }
  }

  /** When the queue empties, the visited addresses are the least set that contains main and is closed
      under call targets and methods of touched app classes. */
  lemma VisitedIsReachability(g: Program, max: int)
    requires Run(g, max).queue == []
    ensures var v := Run(g, max).visited;
            g.main in v && Closed(g, v) && forall s: set<int> :: g.main in s && Closed(g, s) ==> v <= s
  {
    hide RunFrom, Level, Program.Edge, InOrder, Successors;
    StartInUniverse(g);
    StartKeeps(g);
    var d, c := RunKeeps(g, max, Start(g), 0, 1);
    var w := Run(g, max);
    assert w.queue[..c] == [];
    LevelGrows(g, 0, d);
    MainIsNear(g);
    forall u, t | u in w.visited && g.Edge(u, t) ensures t in w.visited { VisitedLoses(g, w, u, t); }
    forall s: set<int> | g.main in s && Closed(g, s) ensures w.visited <= s { LevelInClosed(g, d, s); }
  }

  lemma MainIsNear(g: Program)
    ensures g.main in Level(g, 0)
  {
  }

  /** Without a cap the queue always empties. */
  lemma UncappedRunFinishes(g: Program)
    ensures Run(g, 0).queue == []
  {
    hide RunFrom, Level, Keeps;
    StartInUniverse(g);
    StartKeeps(g);
    var d, c := RunKeeps(g, 0, Start(g), 0, 1);
  }

  /** The walk ends with an empty queue or at its cap. */
  lemma RunEnds(g: Program, max: int)
    ensures Run(g, max).queue == [] || (max > 0 && |Run(g, max).emitted| == max)
  {
    hide RunFrom, Level, Keeps;
    StartInUniverse(g);
    StartKeeps(g);
    var d, c := RunKeeps(g, max, Start(g), 0, 1);
    CappedRunIsPrefix(g, max);
  }

  /** Every function is emitted at most once, only if visited, in range, not framework and built, and in
      nondecreasing distance from main, whatever the cap. */
  lemma EmissionsInOrder(g: Program, max: int)
    ensures InOrder(g, Run(g, max))
  {
    hide RunFrom, Level, InOrder;
    StartInUniverse(g);
    StartKeeps(g);
    var d, c := RunKeeps(g, max, Start(g), 0, 1);
  }

  // ---------- the cap ----------

  lemma {:induction false} EmissionsOnlyGrow(g: Program, max: int, w: Walk)
    requires InUniverse(g, w)
    ensures w.emitted <= RunFrom(g, max, w).emitted
    decreases |g.Universe() - w.visited|, |w.queue|
  {
    hide Step, InUniverse;
    if w.queue != [] && !Capped(max, w) {
      RunTurn(g, max, w);
      StepMoves(g, w);
      EmissionsOnlyGrow(g, max, Step(g, w));
    }
  }

  lemma {:induction false} CappedRunIsPrefixFrom(g: Program, max: int, w: Walk)
    requires InUniverse(g, w) && (max > 0 ==> |w.emitted| <= max)
    ensures RunFrom(g, max, w).emitted <= RunFrom(g, 0, w).emitted
    ensures max > 0 ==> |RunFrom(g, max, w).emitted| <= max
    decreases |g.Universe() - w.visited|, |w.queue|
  {
    hide Step, InUniverse;
    if w.queue != [] && !Capped(max, w) {
      RunTurn(g, max, w);
      RunTurn(g, 0, w);
      StepMoves(g, w);
      CappedRunIsPrefixFrom(g, max, Step(g, w));
    } else {
      EmissionsOnlyGrow(g, 0, w);
    }
  }

  /** A capped run emits a prefix of what the uncapped run emits, never more than the cap. */
  lemma CappedRunIsPrefix(g: Program, max: int)
    ensures Run(g, max).emitted <= Run(g, 0).emitted
    ensures max > 0 ==> |Run(g, max).emitted| <= max
  {
    hide RunFrom;
    StartInUniverse(g);
    CappedRunIsPrefixFrom(g, max, Start(g));
  }

  // ---------- the counters ----------

  /** Emitted functions whose walk panicked afterwards; they are counted as skipped too. */
  function LatePanics(g: Program, emitted: seq<int>): nat {
    if emitted == [] then 0
    else
      var last := emitted[|emitted| - 1];
      LatePanics(g, emitted[..|emitted| - 1]) + if g.build(last).Built? && g.build(last).panicked then 1 else 0
  }

  ghost predicate Balanced(g: Program, w: Walk) {
    |w.emitted| + w.skipped + w.frameworkSkipped == |w.visited * g.ranges.Keys| + LatePanics(g, w.emitted)
  }

  /** The counters after one step. */
  lemma StepCounts(g: Program, w: Walk)
    requires w.queue != []
    ensures var va, w' := w.queue[0], Step(g, w);
            w'.skipped + w'.frameworkSkipped - w.skipped - w.frameworkSkipped ==
            if va in w.visited || va !in g.ranges then 0
            else if g.Expands(va) then (if g.build(va).panicked then 1 else 0)
            else 1
  {
    hide TouchAll, Unvisited;
    var va := w.queue[0];
    if va !in w.visited && g.Expands(va) {
      var b := g.build(va);
      TouchAllMarks(g, Push(BeforeExpand(g, w).(emitted := w.emitted + [va]), b.targets), b.classRefs);
    }
  }

  lemma MovesEmit(g: Program, w: Walk)
    requires w.queue != []
    ensures var va, w' := w.queue[0], Step(g, w);
            && w'.visited == w.visited + {va}
            && (va in w.visited ==> w'.visited == w.visited)
            && w'.emitted == if va !in w.visited && g.Expands(va) then w.emitted + [va] else w.emitted
  {
    hide Step, Program.Expands, Program.Edge;
    StepMoves(g, w);
  }

  lemma BalancedStep(g: Program, w: Walk)
    requires w.queue != [] && Balanced(g, w)
    ensures Balanced(g, Step(g, w))
  {
    hide Step, Program.IsFramework, LatePanics, Program.Edge;
    var va := w.queue[0];
    MovesEmit(g, w);
    StepCounts(g, w);
    if va !in w.visited {
      OneMoreVisited(w.visited, g.ranges.Keys, va);
      OneMoreEmitted(g, w.emitted, va);
    }
  }

  lemma OneMoreVisited(visited: set<int>, keys: set<int>, va: int)
    requires va !in visited
    ensures |(visited + {va}) * keys| == |visited * keys| + if va in keys then 1 else 0
  {
    if va in keys {
      assert (visited + {va}) * keys == visited * keys + {va};
    } else {
      assert (visited + {va}) * keys == visited * keys;
    }
  }

  lemma OneMoreEmitted(g: Program, emitted: seq<int>, va: int)
    ensures LatePanics(g, emitted + [va])
         == LatePanics(g, emitted) + if g.build(va).Built? && g.build(va).panicked then 1 else 0
  {
    assert (emitted + [va])[..|emitted|] == emitted;
  }

  lemma {:induction false} RunIsBalanced(g: Program, max: int, w: Walk)
    requires InUniverse(g, w) && Balanced(g, w)
    ensures Balanced(g, RunFrom(g, max, w))
    decreases |g.Universe() - w.visited|, |w.queue|
  {
    hide Step, InUniverse, Balanced;
    if w.queue != [] && !Capped(max, w) {
      RunTurn(g, max, w);
      BalancedStep(g, w);
      RunIsBalanced(g, max, Step(g, w));
    }
  }

  /** Emitted, skipped and framework functions add up to the visited ones in range, and only to more by
      the functions that panicked after being emitted. */
  lemma CountersAddUp(g: Program, max: int)
    ensures var w := Run(g, max);
            |w.emitted| + w.skipped + w.frameworkSkipped == |w.visited * g.ranges.Keys| + LatePanics(g, w.emitted)
  {
    hide RunFrom;
    StartInUniverse(g);
    RunIsBalanced(g, max, Start(g));
  }
}
