/** The disassembly stage: chunks of functions computed by a pool of workers, each in strides, and
    drained in input order.  The workers are interleaved one instruction at a time. */
module DisasmStage {
  import opened Wire
  import opened Modular
  import opened Peephole

  /** A function's instructions the peephole annotator is asked about: once while the listing is
      formatted and again while the call edges are extracted. */
  datatype Func = Func(listed: seq<Inst>, replayed: seq<Inst>)

  datatype Edge = Edge(text: string, blr: bool, via: string)

  /** The write of a record that fails when it is drained. */
  datatype Fault =
    | InIndex(error: string)
    | InFunctions(error: string)
    | InEdge(at: nat, error: string)
    | InCfg(error: string)
    | InString(at: nat, error: string)
    | InUnresolved(at: nat, error: string)

  datatype Record = Record(
    entry: string, func: string, edges: seq<Edge>, hasCfg: bool, strings: seq<string>, unresolved: seq<string>,
    fault: Option<Fault>)

  datatype Slot = Blank | Partial | Skipped | Failed(error: string) | Ready(record: Record)

  /** What the workers only read: the ranges (None is outside the image), the pool, the outcome of
      writing a function's files, and the record made of it. */
  datatype Stage = Stage(
    ranges: seq<Option<Func>>,
    view: PoolView,
    writeFiles: (nat, seq<Note>) -> Option<string>,
    record: (nat, seq<Note>) -> Record)

  // ---------- one function ----------

  datatype Phase =
    | Idle
    | Listing(left: seq<Inst>, notes: seq<Note>, func: Func)
    | Replaying(left: seq<Inst>, notes: seq<Note>)

  /** The slot, the worker's peephole state and its phase after one more instruction. */
  datatype Progress = Progress(slot: Slot, peep: Peep, phase: Phase) {
    predicate Finished() { phase.Idle? }
  }

  function Work(st: Stage, i: nat, phase: Phase, peep: Peep): Progress
    requires i < |st.ranges|
  {
    match phase
    case Idle => (
      match st.ranges[i]
      case None => Progress(Skipped, peep, Idle)
      case Some(f) => Progress(Partial, peep.Reset(), Listing(f.listed, [], f))
    )
    case Listing(left, notes, f) =>
      if left != [] then
        var (note, peep') := Annotate(st.view, peep, left[0]);
        Progress(Partial, peep', Listing(left[1..], notes + [note], f))
      else (
        match st.writeFiles(i, notes)
        case Some(e) => Progress(Failed(e), peep, Idle)
        case None => Progress(Partial, peep, Replaying(f.replayed, []))
      )
    case Replaying(left, notes) =>
      if left != [] then
        var (note, peep') := Annotate(st.view, peep, left[0]);
        Progress(Partial, peep', Replaying(left[1..], notes + [note]))
      else Progress(Ready(st.record(i, notes)), peep, Idle)
  }

  /** The slot a worker ends with if nobody disturbs it. */
  function Outcome(st: Stage, i: nat, phase: Phase, peep: Peep): Slot
    requires i < |st.ranges|
  {
    match phase
    case Idle => Sequential(st, i)
    case Listing(left, notes, f) =>
      var a := AnnotateAll(st.view, peep, left);
      AfterListing(st, i, notes + a.notes, f, a.peep)
    case Replaying(left, notes) => Ready(st.record(i, notes + AnnotateAll(st.view, peep, left).notes))
  }

  function AfterListing(st: Stage, i: nat, notes: seq<Note>, f: Func, peep: Peep): Slot
    requires i < |st.ranges|
  {
    match st.writeFiles(i, notes)
    case Some(e) => Failed(e)
    case None => Ready(st.record(i, AnnotateAll(st.view, peep, f.replayed).notes))
  }

  /** Range i on its own, with a new peephole state. */
  function Sequential(st: Stage, i: nat): Slot
    requires i < |st.ranges|
  {
    match st.ranges[i]
    case None => Skipped
    case Some(f) =>
      var a := AnnotateAll(st.view, FRESH, f.listed);
      AfterListing(st, i, a.notes, f, a.peep)
  }

  lemma PrependNote(view: PoolView, peep: Peep, left: seq<Inst>, notes: seq<Note>)
    requires left != []
    ensures var (note, peep') := Annotate(view, peep, left[0]);
            var a, a' := AnnotateAll(view, peep, left), AnnotateAll(view, peep', left[1..]);
            notes + a.notes == notes + [note] + a'.notes && a.peep == a'.peep
  {
    hide Annotate;
    var (note, peep') := Annotate(view, peep, left[0]);
    var a' := AnnotateAll(view, peep', left[1..]);
    assert notes + ([note] + a'.notes) == notes + [note] + a'.notes;
  }

  /** Whatever function the worker did before, and wherever it gave up, its next function comes out as
      if it were the first: a step never changes the outcome. */
  lemma WorkKeepsOutcome(st: Stage, i: nat, phase: Phase, peep: Peep)
    requires i < |st.ranges|
    ensures var p := Work(st, i, phase, peep);
            && (p.Finished() ==> p.slot == Outcome(st, i, phase, peep))
            && (!p.Finished() ==> p.slot == Partial && Outcome(st, i, p.phase, p.peep) == Outcome(st, i, phase, peep))
  {
    hide Annotate, Peep.Reset;
    match phase
    case Idle =>
      if st.ranges[i].Some? {
        var f := st.ranges[i].value;
        ResetForgets(st, i, f, peep);
      }
    case Listing(left, notes, f) =>
      if left != [] {
        PrependNote(st.view, peep, left, notes);
      } else {
        var replayed := AnnotateAll(st.view, peep, f.replayed).notes;
        assert notes + AnnotateAll(st.view, peep, left).notes == notes && [] + replayed == replayed;
      }
    case Replaying(left, notes) =>
      if left != [] {
        PrependNote(st.view, peep, left, notes);
      } else {
        assert notes + AnnotateAll(st.view, peep, left).notes == notes;
      }
  }

  lemma ResetForgets(st: Stage, i: nat, f: Func, peep: Peep)
    requires i < |st.ranges| && st.ranges[i] == Some(f)
    ensures Outcome(st, i, Listing(f.listed, [], f), peep.Reset()) == Sequential(st, i)
  {
    var p := peep.Reset();
    AlikeAnnotate(st.view, p, FRESH, f.listed);
    var a, b := AnnotateAll(st.view, p, f.listed), AnnotateAll(st.view, FRESH, f.listed);
    AlikeAnnotate(st.view, a.peep, b.peep, f.replayed);
    assert [] + a.notes == b.notes;
  }

  // ---------- the pool ----------

  /** A worker's loop variable, counted from the start of the chunk, and its place in the loop body. */
  datatype Routine = Routine(next: nat, phase: Phase)

  /** The goroutines, the peephole states and the output slots of one chunk. */
  datatype View = View(routines: seq<Routine>, peeps: seq<Peep>, slots: seq<Slot>) {
    predicate Shaped(len: nat) {
      0 < |routines| == |peeps| && len <= |slots|
    }

    predicate Busy(w: nat, len: nat) {
      w < |routines| && routines[w].next < len
    }
  }

  /** Worker w does one thing. */
  function Step(st: Stage, first: nat, len: nat, v: View, w: nat): (r: View)
    requires v.Shaped(len) && v.Busy(w, len) && first + len <= |st.ranges|
    ensures r.Shaped(len)
  {
    var o := v.routines[w].next;
    var p := Work(st, first + o, v.routines[w].phase, v.peeps[w]);
    var next := if p.Finished() then o + |v.routines| else o;
    View(v.routines[w := Routine(next, p.phase)], v.peeps[w := p.peep], v.slots[o := p.slot])
  }

  /** Between two turns of a worker there is no slot of its own. */
  lemma NoneBetween(o: nat, j: nat, m: nat)
    requires o < j < o + m
    ensures j % m != o % m
  {
    var q, r := o / m, o % m;
    if r + (j - o) < m {
      DivMod(j, m, q, r + (j - o));
    } else {
      assert j == (q + 1) * m + (r + (j - o) - m);
      DivMod(j, m, q + 1, r + (j - o) - m);
    }
  }

  /** Slot j belongs to worker j mod W, which has either finished it, or is at it, or has not come to it. */
  ghost predicate SlotKept(st: Stage, first: nat, len: nat, v: View, j: nat)
    requires v.Shaped(len) && j < len && first + len <= |st.ranges|
  {
    var w := j % |v.routines|;
    var r := v.routines[w];
    && (j < r.next ==> v.slots[j] == Sequential(st, first + j))
    && (j == r.next ==> v.slots[j] == (if r.phase.Idle? then Blank else Partial)
                        && Outcome(st, first + j, r.phase, v.peeps[w]) == Sequential(st, first + j))
    && (j > r.next ==> v.slots[j] == Blank)
  }

  ghost predicate Kept(st: Stage, first: nat, len: nat, v: View) {
    && v.Shaped(len) && first + len <= |st.ranges|
    && (forall w :: 0 <= w < |v.routines| ==> v.routines[w].next % |v.routines| == w)
    && (forall j :: 0 <= j < len ==> SlotKept(st, first, len, v, j))
  }

  /** One step writes one slot, its own, and one peephole state, its own. */
  lemma StepIsLocal(st: Stage, first: nat, len: nat, v: View, w: nat)
    requires Kept(st, first, len, v) && v.Busy(w, len)
    ensures var v' := Step(st, first, len, v, w);
            && |v'.slots| == |v.slots| && |v'.peeps| == |v.peeps|
            && (forall j :: 0 <= j < |v.slots| && v'.slots[j] != v.slots[j] ==>
                  j == v.routines[w].next && j % |v.routines| == w)
            && (forall u :: 0 <= u < |v.peeps| && u != w ==>
                  v'.peeps[u] == v.peeps[u] && v'.routines[u] == v.routines[u])
  {
    hide Work, SlotKept;
  }

  lemma SlotKeptStep(st: Stage, first: nat, len: nat, v: View, w: nat, j: nat)
    requires Kept(st, first, len, v) && v.Busy(w, len) && j < len
    ensures SlotKept(st, first, len, Step(st, first, len, v, w), j)
  {
    hide Work, Outcome, Sequential;
    assert SlotKept(st, first, len, v, j);
    var o := v.routines[w].next;
    assert o % |v.routines| == w;
    WorkKeepsOutcome(st, first + o, v.routines[w].phase, v.peeps[w]);
    if j % |v.routines| == w && o < j < o + |v.routines| { NoneBetween(o, j, |v.routines|); }
    IdleOutcome(st, first + j, Work(st, first + o, v.routines[w].phase, v.peeps[w]).peep);
  }

  lemma IdleOutcome(st: Stage, i: nat, peep: Peep)
    requires i < |st.ranges|
    ensures Outcome(st, i, Idle, peep) == Sequential(st, i)
  {
  }

  lemma KeptStep(st: Stage, first: nat, len: nat, v: View, w: nat)
    requires Kept(st, first, len, v) && v.Busy(w, len)
    ensures Kept(st, first, len, Step(st, first, len, v, w))
  {
    hide SlotKept, Work;
    forall j | 0 <= j < len ensures SlotKept(st, first, len, Step(st, first, len, v, w), j) {
      SlotKeptStep(st, first, len, v, w, j);
    }
    ModAdd(v.routines[w].next, |v.routines|);
  }

  /** Steps of two workers can be taken in either order. */
  lemma StepsCommute(st: Stage, first: nat, len: nat, v: View, a: nat, b: nat)
    requires Kept(st, first, len, v) && v.Busy(a, len) && v.Busy(b, len) && a != b
    ensures var va, vb := Step(st, first, len, v, a), Step(st, first, len, v, b);
            && va.Busy(b, len) && vb.Busy(a, len)
            && Step(st, first, len, va, b) == Step(st, first, len, vb, a)
  {
    hide Work, SlotKept;
    assert v.routines[a].next % |v.routines| != v.routines[b].next % |v.routines|;
  }

  /** When no worker is left with anything to do, the chunk is what one worker would have computed. */
  lemma AllDone(st: Stage, first: nat, len: nat, v: View)
    requires Kept(st, first, len, v) && forall w :: 0 <= w < |v.routines| ==> !v.Busy(w, len)
    ensures v.slots[..len] == Computed(st, first, len)
  {
    hide Outcome, Sequential;
    forall j | 0 <= j < len ensures v.slots[j] == Sequential(st, first + j) {
      assert SlotKept(st, first, len, v, j);
      assert !v.Busy(j % |v.routines|, len);
    }
  }

  function Computed(st: Stage, first: nat, len: nat): seq<Slot>
    requires first + len <= |st.ranges|
  {
    seq(len, k requires 0 <= k < len => Sequential(st, first + k))
  }

  // ---------- progress ----------

  function PhaseLeft(st: Stage, i: nat, phase: Phase): nat
    requires i < |st.ranges|
  {
    match phase
    case Idle => if st.ranges[i].Some? then |st.ranges[i].value.listed| + |st.ranges[i].value.replayed| + 3 else 1
    case Listing(left, _, f) => |left| + |f.replayed| + 2
    case Replaying(left, _) => |left| + 1
  }

  function SlotsLeft(len: nat, r: Routine): nat {
    if r.next < len then len - r.next else 0
  }

  function StepsLeft(st: Stage, first: nat, len: nat, r: Routine): nat
    requires first + len <= |st.ranges|
  {
    if r.next < len then PhaseLeft(st, first + r.next, r.phase) else 0
  }

  function TotalSlots(len: nat, rs: seq<Routine>): nat {
    if rs == [] then 0 else SlotsLeft(len, rs[0]) + TotalSlots(len, rs[1..])
  }

  function TotalSteps(st: Stage, first: nat, len: nat, rs: seq<Routine>): nat
    requires first + len <= |st.ranges|
  {
    if rs == [] then 0 else StepsLeft(st, first, len, rs[0]) + TotalSteps(st, first, len, rs[1..])
  }

  lemma {:induction false} TotalSlotsUpdate(len: nat, rs: seq<Routine>, w: nat, r: Routine)
    requires w < |rs|
    ensures TotalSlots(len, rs[w := r]) == TotalSlots(len, rs) - SlotsLeft(len, rs[w]) + SlotsLeft(len, r)
  {
    if w == 0 {
      assert rs[w := r][1..] == rs[1..];
    } else {
      TotalSlotsUpdate(len, rs[1..], w - 1, r);
      assert rs[w := r][1..] == rs[1..][w - 1 := r];
    }
  }

  lemma {:induction false} TotalStepsUpdate(st: Stage, first: nat, len: nat, rs: seq<Routine>, w: nat, r: Routine)
    requires w < |rs| && first + len <= |st.ranges|
    ensures TotalSteps(st, first, len, rs[w := r])
         == TotalSteps(st, first, len, rs) - StepsLeft(st, first, len, rs[w]) + StepsLeft(st, first, len, r)
  {
    if w == 0 {
      assert rs[w := r][1..] == rs[1..];
    } else {
      TotalStepsUpdate(st, first, len, rs[1..], w - 1, r);
      assert rs[w := r][1..] == rs[1..][w - 1 := r];
    }
  }

  /** Every step of every worker brings the chunk nearer to its end, so no schedule can go on for ever. */
  lemma StepProgress(st: Stage, first: nat, len: nat, v: View, w: nat)
    requires v.Shaped(len) && v.Busy(w, len) && first + len <= |st.ranges|
    ensures var v' := Step(st, first, len, v, w);
            || TotalSlots(len, v'.routines) < TotalSlots(len, v.routines)
            || (TotalSlots(len, v'.routines) == TotalSlots(len, v.routines)
                && TotalSteps(st, first, len, v'.routines) < TotalSteps(st, first, len, v.routines))
  {
    hide TotalSlots, TotalSteps, Annotate, Peep.Reset;
    var r := Step(st, first, len, v, w).routines[w];
    TotalSlotsUpdate(len, v.routines, w, r);
    TotalStepsUpdate(st, first, len, v.routines, w, r);
  }

  // ---------- any schedule ----------

  function StartView(workers: nat, peeps: seq<Peep>, slots: seq<Slot>): View {
    View(seq(workers, w requires 0 <= w < workers => Routine(w, Idle)), peeps, slots)
  }

  lemma StartKept(st: Stage, first: nat, len: nat, workers: nat, peeps: seq<Peep>, slots: seq<Slot>)
    requires 0 < workers == |peeps| && len <= |slots| && first + len <= |st.ranges|
    requires forall j :: 0 <= j < len ==> slots[j] == Blank
    ensures Kept(st, first, len, StartView(workers, peeps, slots))
  {
    hide Sequential;
    var v := StartView(workers, peeps, slots);
    forall w | 0 <= w < workers ensures w % workers == w { SmallMod(w, workers); }
    forall j | 0 <= j < len ensures SlotKept(st, first, len, v, j) {
      if j < workers { SmallMod(j, workers); }
    }
  }

  /** The workers run in the order of the schedule; those with nothing to do let their turn pass. */
  function Follow(st: Stage, first: nat, len: nat, v: View, schedule: seq<nat>): (r: View)
    requires v.Shaped(len) && first + len <= |st.ranges|
    ensures r.Shaped(len)
    decreases |schedule|
  {
    if schedule == [] then v
    else
      var v' := if v.Busy(schedule[0], len) then Step(st, first, len, v, schedule[0]) else v;
      Follow(st, first, len, v', schedule[1..])
  }

  lemma {:induction false} FollowKept(st: Stage, first: nat, len: nat, v: View, schedule: seq<nat>)
    requires Kept(st, first, len, v)
    ensures Kept(st, first, len, Follow(st, first, len, v, schedule))
    decreases |schedule|
  {
    hide SlotKept, Work;
    if schedule != [] {
      var w := schedule[0];
      if v.Busy(w, len) {
        KeptStep(st, first, len, v, w);
        FollowKept(st, first, len, Step(st, first, len, v, w), schedule[1..]);
      } else {
        FollowKept(st, first, len, v, schedule[1..]);
      }
    }
  }

  /** Whatever the number of workers, the peephole states left by earlier chunks and the interleaving:
      once the workers are done the chunk holds what a single pass computes. */
  lemma EveryInterleaving(
    st: Stage, first: nat, len: nat, workers: nat, peeps: seq<Peep>, slots: seq<Slot>, schedule: seq<nat>)
    requires 0 < workers == |peeps| && len <= |slots| && first + len <= |st.ranges|
    requires forall j :: 0 <= j < len ==> slots[j] == Blank
    ensures var v := Follow(st, first, len, StartView(workers, peeps, slots), schedule);
            (forall w :: 0 <= w < workers ==> !v.Busy(w, len)) ==> v.slots[..len] == Computed(st, first, len)
  {
    hide SlotKept, Work, Follow;
    var v0 := StartView(workers, peeps, slots);
    StartKept(st, first, len, workers, peeps, slots);
    FollowKept(st, first, len, v0, schedule);
    FollowSameWorkers(st, first, len, v0, schedule);
    var v := Follow(st, first, len, v0, schedule);
    if forall w :: 0 <= w < workers ==> !v.Busy(w, len) { AllDone(st, first, len, v); }
  }

  lemma {:induction false} FollowSameWorkers(st: Stage, first: nat, len: nat, v: View, schedule: seq<nat>)
    requires v.Shaped(len) && first + len <= |st.ranges|
    ensures |Follow(st, first, len, v, schedule).routines| == |v.routines|
    decreases |schedule|
  {
    hide Work;
    if schedule != [] {
      var w := schedule[0];
      FollowSameWorkers(st, first, len, if v.Busy(w, len) then Step(st, first, len, v, w) else v, schedule[1..]);
    }
  }

  // ---------- the drain ----------

  /** The shared outputs and the counters. */
  datatype Drained = Drained(
    index: seq<string>, functions: seq<string>, callEdges: seq<Edge>, stringRefs: seq<string>, unresolved: seq<string>,
    graphFunctions: seq<string>, graphEdges: seq<Edge>,
    totalEdges: nat, totalBLR: nat, annotatedBLR: nat, unannotatedBLR: nat,
    cfgCount: nat, totalStrings: nat, totalUnresolved: nat, written: nat)

  const NOTHING := Drained([], [], [], [], [], [], [], 0, 0, 0, 0, 0, 0, 0, 0)

  datatype DrainResult = DrainResult(out: Drained, error: Option<string>)

  function BLRs(edges: seq<Edge>): nat {
    if edges == [] then 0
    else BLRs(edges[..|edges| - 1]) + if edges[|edges| - 1].blr then 1 else 0
  }

  function AnnotatedBLRs(edges: seq<Edge>): nat {
    if edges == [] then 0
    else
      var e := edges[|edges| - 1];
      AnnotatedBLRs(edges[..|edges| - 1]) + if e.blr && e.via != "" then 1 else 0
  }

  lemma {:induction false} FewerAnnotated(edges: seq<Edge>)
    ensures AnnotatedBLRs(edges) <= BLRs(edges)
  {
    if edges != [] { FewerAnnotated(edges[..|edges| - 1]); }
  }

  function WithEdges(d: Drained, edges: seq<Edge>): Drained {
    FewerAnnotated(edges);
    d.(callEdges := d.callEdges + edges,
       totalEdges := d.totalEdges + |edges|,
       totalBLR := d.totalBLR + BLRs(edges),
       annotatedBLR := d.annotatedBLR + AnnotatedBLRs(edges),
       unannotatedBLR := d.unannotatedBLR + BLRs(edges) - AnnotatedBLRs(edges))
  }

  function WithGraph(d: Drained, r: Record): Drained {
    d.(cfgCount := if r.hasCfg then d.cfgCount + 1 else d.cfgCount,
       graphFunctions := d.graphFunctions + [r.func],
       graphEdges := d.graphEdges + r.edges)
  }

  function WithStrings(d: Drained, strings: seq<string>): Drained {
    d.(stringRefs := d.stringRefs + strings, totalStrings := d.totalStrings + |strings|)
  }

  function WithUnresolved(d: Drained, unresolved: seq<string>): Drained {
    d.(unresolved := d.unresolved + unresolved, totalUnresolved := d.totalUnresolved + |unresolved|)
  }

  /** The fault, if the drain comes to the write that it is in. */
  function Stop(graph: bool, r: Record): Option<Fault> {
    match r.fault
    case Some(InEdge(at, _)) => if at < |r.edges| then r.fault else None
    case Some(InCfg(_)) => if graph && r.hasCfg then r.fault else None
    case Some(InString(at, _)) => if at < |r.strings| then r.fault else None
    case Some(InUnresolved(at, _)) => if at < |r.unresolved| then r.fault else None
    case _ => r.fault
  }

  /** One record, write after write up to the one that fails. */
  function WriteRecord(graph: bool, d: Drained, r: Record): DrainResult {
    var stop := Stop(graph, r);
    var d1 := d.(index := d.index + [r.entry]);
    var d2 := d1.(functions := d1.functions + [r.func]);
    var d3 := WithEdges(d2, r.edges);
    var d4 := if graph then WithGraph(d3, r) else d3;
    var d5 := WithStrings(d4, r.strings);
    var d6 := WithUnresolved(d5, r.unresolved);
    match stop
    case Some(InIndex(e)) => DrainResult(d, Some(e))
    case Some(InFunctions(e)) => DrainResult(d1, Some(e))
    case Some(InEdge(at, e)) => DrainResult(WithEdges(d2, r.edges[..at]), Some(e))
    case Some(InCfg(e)) => DrainResult(d3, Some(e))
    case Some(InString(at, e)) => DrainResult(WithStrings(d4, r.strings[..at]), Some(e))
    case Some(InUnresolved(at, e)) => DrainResult(WithUnresolved(d5, r.unresolved[..at]), Some(e))
    case None => DrainResult(d6.(written := d6.written + 1), None)
  }

  /** A slot nobody computed would be drained as an empty record. */
  const NO_RECORD := Record("", "", [], false, [], [], None)

  function RecordOf(slot: Slot): Record {
    if slot.Ready? then slot.record else NO_RECORD
  }

  function DrainFrom(graph: bool, d: Drained, slots: seq<Slot>): DrainResult
    decreases |slots|
  {
    if slots == [] then DrainResult(d, None)
    else
      match slots[0]
      case Failed(e) => DrainResult(d, Some(e))
      case Skipped => DrainFrom(graph, d, slots[1..])
      case _ =>
        var w := WriteRecord(graph, d, RecordOf(slots[0]));
        if w.error.Some? then w else DrainFrom(graph, w.out, slots[1..])
  }

  lemma {:induction false} DrainAppend(graph: bool, d: Drained, a: seq<Slot>, b: seq<Slot>)
    ensures var r := DrainFrom(graph, d, a);
            DrainFrom(graph, d, a + b) == if r.error.Some? then r else DrainFrom(graph, r.out, b)
    decreases |a|
  {
    hide WriteRecord;
    if a == [] {
      assert a + b == b;
    } else {
      assert (a + b)[1..] == a[1..] + b;
      match a[0]
      case Failed(e) =>
      case Skipped => DrainAppend(graph, d, a[1..], b);
      case _ => DrainAppend(graph, WriteRecord(graph, d, RecordOf(a[0])).out, a[1..], b);
    }
  }

  // ---------- what is drained ----------

  /** The drain ends at a slot whose worker failed, or at a record one of whose writes fails. */
  predicate Stops(graph: bool, slot: Slot) {
    slot.Failed? || (slot.Ready? && Stop(graph, slot.record).Some?)
  }

  function ErrorOf(graph: bool, slot: Slot): string
    requires Stops(graph, slot)
  {
    if slot.Failed? then slot.error else Stop(graph, slot.record).value.error
  }

  /** The lowest slot the drain ends at, or the number of slots. */
  function FirstStop(graph: bool, slots: seq<Slot>): (k: nat)
    ensures k <= |slots| && (k < |slots| ==> Stops(graph, slots[k]))
    ensures forall j :: 0 <= j < k ==> !Stops(graph, slots[j])
  {
    if slots == [] || Stops(graph, slots[0]) then 0 else 1 + FirstStop(graph, slots[1..])
  }

  function Records(slots: seq<Slot>): seq<Record> {
    if slots == [] then []
    else (if slots[0].Ready? then [slots[0].record] else []) + Records(slots[1..])
  }

  /** The lines of the shared files. */
  datatype Columns = Columns(
    index: seq<string>, functions: seq<string>, callEdges: seq<Edge>, stringRefs: seq<string>, unresolved: seq<string>)
  {
    function Then(c: Columns): Columns {
      Columns(index + c.index, functions + c.functions, callEdges + c.callEdges,
              stringRefs + c.stringRefs, unresolved + c.unresolved)
    }
  }

  const NO_LINES := Columns([], [], [], [], [])

  function Lines(d: Drained): Columns {
    Columns(d.index, d.functions, d.callEdges, d.stringRefs, d.unresolved)
  }

  function LinesOf(r: Record): Columns {
    Columns([r.entry], [r.func], r.edges, r.strings, r.unresolved)
  }

  /** The lines of the records, column by column, record after record. */
  function AllLines(rs: seq<Record>): Columns {
    if rs == [] then NO_LINES else LinesOf(rs[0]).Then(AllLines(rs[1..]))
  }

  /** In the order of the writes; the last one is never reached. */
  function Rank(stop: Option<Fault>): nat {
    match stop
    case Some(InIndex(_)) => 0
    case Some(InFunctions(_)) => 1
    case Some(InEdge(_, _)) => 2
    case Some(InCfg(_)) => 3
    case Some(InString(_, _)) => 4
    case Some(InUnresolved(_, _)) => 5
    case None => 6
  }

  /** The lines of one file that are written when the rank of the file is n. */
  function Reached<T>(stop: Option<Fault>, n: nat, lines: seq<T>): seq<T> {
    if n < Rank(stop) then lines
    else if stop.Some? && n == Rank(stop) && (stop.value.InEdge? || stop.value.InString? || stop.value.InUnresolved?)
      && stop.value.at < |lines| then lines[..stop.value.at]
    else []
  }

  /** What a record leaves in the files: everything before the write that fails. */
  function Left(graph: bool, r: Record): Columns {
    var stop := Stop(graph, r);
    Columns(Reached(stop, 0, [r.entry]), Reached(stop, 1, [r.func]), Reached(stop, 2, r.edges),
            Reached(stop, 4, r.strings), Reached(stop, 5, r.unresolved))
  }

  lemma RecordLeaves(graph: bool, d: Drained, r: Record)
    ensures var w := WriteRecord(graph, d, r);
            && Lines(w.out) == Lines(d).Then(Left(graph, r))
            && w.error == (match Stop(graph, r) case None => None case Some(f) => Some(f.error))
            && w.out.cfgCount == d.cfgCount + CfgOf(graph, r)
            && w.out.written == d.written + if Stop(graph, r).None? then 1 else 0
  {
    hide BLRs, AnnotatedBLRs;
  }

  /** The flow graphs a record leaves. */
  function CfgOf(graph: bool, r: Record): nat {
    if graph && r.hasCfg && Rank(Stop(graph, r)) > 3 then 1 else 0
  }

  function Cfgs(graph: bool, rs: seq<Record>): nat {
    if rs == [] then 0 else CfgOf(graph, rs[0]) + Cfgs(graph, rs[1..])
  }

  /** Without the write that it is in, a fault is nothing. */
  lemma UnreachedFault(graph: bool, d: Drained, r: Record)
    requires match r.fault
             case Some(InEdge(at, _)) => at >= |r.edges|
             case Some(InCfg(_)) => !graph || !r.hasCfg
             case Some(InString(at, _)) => at >= |r.strings|
             case Some(InUnresolved(at, _)) => at >= |r.unresolved|
             case _ => false
    ensures WriteRecord(graph, d, r) == WriteRecord(graph, d, r.(fault := None))
  {
    hide BLRs, AnnotatedBLRs;
  }

  /** And within it, it ends the drain with its error. */
  lemma ReachedFault(graph: bool, d: Drained, r: Record)
    requires match r.fault
             case Some(InIndex(_)) => true
             case Some(InFunctions(_)) => true
             case Some(InEdge(at, _)) => at < |r.edges|
             case Some(InCfg(_)) => graph && r.hasCfg
             case Some(InString(at, _)) => at < |r.strings|
             case Some(InUnresolved(at, _)) => at < |r.unresolved|
             case None => false
    ensures WriteRecord(graph, d, r).error == Some(r.fault.value.error)
  {
    hide BLRs, AnnotatedBLRs;
  }

  lemma WholeRecord(graph: bool, r: Record)
    requires Stop(graph, r).None?
    ensures Left(graph, r) == LinesOf(r)
  {
  }

  lemma ThenAssociates(a: Columns, b: Columns, c: Columns)
    ensures a.Then(b).Then(c) == a.Then(b.Then(c)) && a.Then(NO_LINES) == a
  {
  }

  lemma LinesCons(r: Record, rs: seq<Record>, before: Columns, after: Columns)
    ensures before.Then(LinesOf(r)).Then(AllLines(rs)).Then(after) == before.Then(AllLines([r] + rs)).Then(after)
  {
    hide Columns.Then;
    assert ([r] + rs)[1..] == rs;
    ThenAssociates(before, LinesOf(r), AllLines(rs));
  }

  /** The slot that the drain ends at adds nothing if it is its worker's failure, else what is written before
      the write that fails. */
  function LeftAt(graph: bool, slots: seq<Slot>, k: nat): Columns
    requires k <= |slots|
  {
    if k < |slots| && slots[k].Ready? then Left(graph, slots[k].record) else NO_LINES
  }

  function CfgAt(graph: bool, slots: seq<Slot>, k: nat): nat
    requires k <= |slots|
  {
    if k < |slots| && slots[k].Ready? then CfgOf(graph, slots[k].record) else 0
  }

  ghost predicate AllComputed(slots: seq<Slot>) {
    forall j :: 0 <= j < |slots| ==> !slots[j].Blank? && !slots[j].Partial?
  }

  /** The files are, in order, the records below the slot the drain ends at and what is left of that one,
      and its error is the one reported. */
  lemma {:induction false} DrainedInOrder(graph: bool, d: Drained, slots: seq<Slot>)
    requires AllComputed(slots)
    ensures var k, r := FirstStop(graph, slots), DrainFrom(graph, d, slots);
            && Lines(r.out) == Lines(d).Then(AllLines(Records(slots[..k]))).Then(LeftAt(graph, slots, k))
            && r.error == if k < |slots| then Some(ErrorOf(graph, slots[k])) else None
    decreases |slots|
  {
    hide WriteRecord, Lines, Columns.Then, Left, Stop, AllLines;
    ThenAssociates(Lines(d), NO_LINES, NO_LINES);
    NoRecords();
    if slots != [] {
      var k, rest := FirstStop(graph, slots), slots[1..];
      if slots[0].Ready? { RecordLeaves(graph, d, slots[0].record); }
      if !Stops(graph, slots[0]) {
        assert slots[..k][1..] == rest[..k - 1];
        if slots[0].Ready? {
          DrainedInOrder(graph, WriteRecord(graph, d, slots[0].record).out, rest);
          WholeRecord(graph, slots[0].record);
          LinesCons(slots[0].record, Records(rest[..k - 1]), Lines(d), LeftAt(graph, rest, k - 1));
        } else {
          DrainedInOrder(graph, d, rest);
          assert [] + Records(rest[..k - 1]) == Records(rest[..k - 1]);
        }
      } else if slots[0].Failed? {
        assert k == 0 && LeftAt(graph, slots, k) == NO_LINES;
      }
    }
  }

  lemma FirstStopUnfolds(graph: bool, slots: seq<Slot>)
    requires slots != []
    ensures var k := FirstStop(graph, slots);
            if Stops(graph, slots[0]) then k == 0
            else k == FirstStop(graph, slots[1..]) + 1 && slots[..k][1..] == slots[1..][..k - 1] && slots[..k][0] == slots[0]
  {
  }

  /** Whole records are counted, and the flow graphs that were written. */
  lemma {:induction false} DrainedCounts(graph: bool, d: Drained, slots: seq<Slot>)
    requires AllComputed(slots)
    ensures var k, r := FirstStop(graph, slots), DrainFrom(graph, d, slots);
            && r.out.cfgCount == d.cfgCount + Cfgs(graph, Records(slots[..k])) + CfgAt(graph, slots, k)
            && r.out.written == d.written + |Records(slots[..k])|
    decreases |slots|
  {
    hide WriteRecord, Lines, Left, Stop, CfgOf, FirstStop, Columns.Then, DrainFrom;
    DrainUnfolds(graph, d, slots);
    if slots != [] {
      FirstStopUnfolds(graph, slots);
      if slots[0].Ready? { RecordLeaves(graph, d, slots[0].record); }
      if !Stops(graph, slots[0]) {
        var records := Records(slots[1..][..FirstStop(graph, slots[1..])]);
        if slots[0].Ready? {
          DrainedCounts(graph, WriteRecord(graph, d, slots[0].record).out, slots[1..]);
          assert ([slots[0].record] + records)[1..] == records;
        } else {
          DrainedCounts(graph, d, slots[1..]);
          assert [] + records == records;
        }
      }
    }
  }

  lemma NoRecords()
    ensures AllLines([]) == NO_LINES
  {
  }

  /** The drain ends without a trace of the record it ends at. */
  predicate Clean(graph: bool, slots: seq<Slot>, k: nat)
    requires k <= |slots|
  {
    k < |slots| && slots[k].Ready? && Stop(graph, slots[k].record).Some? ==> Stop(graph, slots[k].record).value.InIndex?
  }

  /** The files are exactly the records below the slot that the drain ends at if and only if it ends there
      for a worker's failure or at the first write of the record. */
  lemma ExactIffClean(graph: bool, d: Drained, slots: seq<Slot>)
    requires AllComputed(slots)
    ensures var k := FirstStop(graph, slots);
            Lines(DrainFrom(graph, d, slots).out) == Lines(d).Then(AllLines(Records(slots[..k])))
            <==> Clean(graph, slots, k)
  {
    hide DrainFrom, AllLines, Records, Stop, Lines, FirstStop;
    var k := FirstStop(graph, slots);
    DrainedInOrder(graph, d, slots);
    var a := Lines(d).Then(AllLines(Records(slots[..k])));
    assert |a.Then(LeftAt(graph, slots, k)).index| == |a.index| + |LeftAt(graph, slots, k).index|;
    ThenAssociates(a, NO_LINES, NO_LINES);
  }

  /** A flow graph that cannot be written ends the drain with the record's entry, row and edges written. */
  lemma CfgFailureIsPartial(d: Drained, slots: seq<Slot>, k: nat, r: Record, e: string)
    requires AllComputed(slots) && FirstStop(true, slots) == k < |slots|
    requires slots[k] == Ready(r) && r.hasCfg && r.fault == Some(InCfg(e))
    ensures var w := DrainFrom(true, d, slots);
            && Lines(w.out) == Lines(d).Then(AllLines(Records(slots[..k]))).Then(Columns([r.entry], [r.func], r.edges, [], []))
            && w.error == Some(e)
  {
    hide DrainFrom, AllLines, Records, FirstStop, Lines, Columns.Then;
    DrainedInOrder(true, d, slots);
  }

  // ---------- counters ----------

  /** The counters agree with the outputs. */
  ghost predicate Balanced(d: Drained) {
    && d.totalEdges == |d.callEdges|
    && d.totalBLR == d.annotatedBLR + d.unannotatedBLR == BLRs(d.callEdges)
    && d.annotatedBLR == AnnotatedBLRs(d.callEdges)
    && d.totalStrings == |d.stringRefs|
    && d.totalUnresolved == |d.unresolved|
    && d.cfgCount <= |d.functions|
    && d.written <= |d.functions| <= |d.index| <= d.written + 1
  }

  /** Every record that was begun is counted. */
  ghost predicate Complete(d: Drained) {
    d.written == |d.index| == |d.functions|
  }

  /** The call graph is made of what was drained, or of nothing. */
  ghost predicate GraphFollows(graph: bool, d: Drained) {
    && d.graphFunctions == (if graph then d.functions else [])
    && d.graphEdges == (if graph then d.callEdges else [])
  }

  /** The drain ends between a record's row and its place in the call graph. */
  predicate BeforeGraph(graph: bool, slots: seq<Slot>, k: nat)
    requires k <= |slots|
  {
    graph && k < |slots| && slots[k].Ready? && Rank(Stop(graph, slots[k].record)) in {2, 3}
  }

  lemma {:induction false} DrainGraph(graph: bool, d: Drained, slots: seq<Slot>)
    requires GraphFollows(graph, d) && AllComputed(slots)
    ensures GraphFollows(graph, DrainFrom(graph, d, slots).out) <==> !BeforeGraph(graph, slots, FirstStop(graph, slots))
    decreases |slots|
  {
    hide WriteRecord, GraphFollows, Stop;
    if slots != [] {
      if slots[0].Ready? {
        RecordLeaves(graph, d, slots[0].record);
        RecordInGraph(graph, d, slots[0].record);
      }
      if !Stops(graph, slots[0]) {
        DrainGraph(graph, if slots[0].Ready? then WriteRecord(graph, d, slots[0].record).out else d, slots[1..]);
      }
    }
  }

  lemma RecordInGraph(graph: bool, d: Drained, r: Record)
    requires GraphFollows(graph, d)
    ensures GraphFollows(graph, WriteRecord(graph, d, r).out) <==> !(graph && Rank(Stop(graph, r)) in {2, 3})
  {
    hide BLRs, AnnotatedBLRs;
    var out := WriteRecord(graph, d, r).out;
    assert graph && Rank(Stop(graph, r)) in {2, 3} ==> |out.functions| == |out.graphFunctions| + 1;
  }

  function BLRsAmong(edges: seq<Edge>, found: bool): set<int> {
    set i | 0 <= i < |edges| && edges[i].blr && (found ==> edges[i].via != "")
  }

  lemma BLRsAmongLast(edges: seq<Edge>, found: bool)
    requires edges != []
    ensures var n := |edges| - 1;
            |BLRsAmong(edges, found)| == |BLRsAmong(edges[..n], found)|
              + if edges[n].blr && (found ==> edges[n].via != "") then 1 else 0
  {
    var n := |edges| - 1;
    var before, all := BLRsAmong(edges[..n], found), BLRsAmong(edges, found);
    forall i ensures i in all <==> i in before || (i == n && edges[n].blr && (found ==> edges[n].via != "")) {
      if 0 <= i < n { assert edges[..n][i] == edges[i]; }
    }
    if edges[n].blr && (found ==> edges[n].via != "") {
      assert all == before + {n};
    } else {
      assert all == before;
    }
  }

  /** The BLR counters count the edges that are BLRs, and among them those with a target found. */
  lemma {:induction false} BLRsAreCounted(edges: seq<Edge>)
    ensures BLRs(edges) == |BLRsAmong(edges, false)| && AnnotatedBLRs(edges) == |BLRsAmong(edges, true)|
  {
    hide BLRsAmong;
    if edges == [] {
      NoBLRs();
    } else {
      BLRsAreCounted(edges[..|edges| - 1]);
      BLRsAmongLast(edges, false);
      BLRsAmongLast(edges, true);
    }
  }

  lemma NoBLRs()
    ensures forall found :: BLRsAmong([], found) == {}
  {
  }

  lemma {:induction false} BLRsAppend(a: seq<Edge>, b: seq<Edge>)
    ensures BLRs(a + b) == BLRs(a) + BLRs(b) && AnnotatedBLRs(a + b) == AnnotatedBLRs(a) + AnnotatedBLRs(b)
  {
    if b == [] {
      assert a + b == a;
    } else {
      assert (a + b)[..|a + b| - 1] == a + b[..|b| - 1];
      BLRsAppend(a, b[..|b| - 1]);
    }
  }

  /** Whatever write fails, the counters agree with the files, and every record begun is counted if and only
      if nothing is left of the one the drain ends at. */
  lemma {:induction false} DrainBalanced(graph: bool, d: Drained, slots: seq<Slot>)
    requires Balanced(d) && Complete(d) && AllComputed(slots)
    ensures var r := DrainFrom(graph, d, slots);
            Balanced(r.out) && (Complete(r.out) <==> Clean(graph, slots, FirstStop(graph, slots)))
    decreases |slots|
  {
    hide Balanced, Complete, WriteRecord, Stop;
    if slots != [] {
      if slots[0].Ready? {
        RecordLeaves(graph, d, slots[0].record);
        RecordBalanced(graph, d, slots[0].record);
      }
      if !Stops(graph, slots[0]) {
        DrainBalanced(graph, if slots[0].Ready? then WriteRecord(graph, d, slots[0].record).out else d, slots[1..]);
      }
    }
  }

  lemma RecordBalanced(graph: bool, d: Drained, r: Record)
    requires Balanced(d) && Complete(d)
    ensures var out, stop := WriteRecord(graph, d, r).out, Stop(graph, r);
            Balanced(out) && (Complete(out) <==> stop.None? || stop.value.InIndex?)
  {
    hide BLRs, AnnotatedBLRs;
    BLRsAppend(d.callEdges, r.edges);
    match Stop(graph, r)
    case Some(InEdge(at, _)) => BLRsAppend(d.callEdges, r.edges[..at]);
    case _ =>
  }

  // ---------- the stage ----------

  /** The memory the goroutines of a chunk share. */
  class Pool {
    const routines: array<Routine>
    const peepholes: array<Peep>
    const outputs: array<Slot>

    ghost predicate Valid()
      reads this
    {
      0 < routines.Length == peepholes.Length
    }

    ghost function Now(): View
      reads this, routines, peepholes, outputs
    {
      View(routines[..], peepholes[..], outputs[..])
    }

    constructor (workers: nat, chunkSize: nat)
      requires workers > 0
      ensures Valid() && routines.Length == workers && outputs.Length == chunkSize
      ensures fresh(routines) && fresh(peepholes) && fresh(outputs)
    {
      routines := new Routine[workers](_ => Routine(0, Idle));
      peepholes := new Peep[workers](_ => FRESH);
      outputs := new Slot[chunkSize](_ => Blank);
    }

    /** One thing done by one worker. */
    method Advance(st: Stage, first: nat, len: nat, w: nat)
      requires Valid() && Now().Busy(w, len) && len <= outputs.Length && first + len <= |st.ranges|
      modifies routines, peepholes, outputs
      ensures Now() == Step(st, first, len, old(Now()), w)
    {
      hide Annotate, Peep.Reset;
      var o, i := routines[w].next, first + routines[w].next;
      match routines[w].phase {
        case Idle =>
          match st.ranges[i] {
            case None =>
              outputs[o] := Skipped;
              routines[w] := Routine(o + routines.Length, Idle);
            case Some(f) =>
              peepholes[w] := peepholes[w].Reset();
              outputs[o] := Partial;
              routines[w] := Routine(o, Listing(f.listed, [], f));
          }
        case Listing(left, notes, f) =>
          if left != [] {
            var (note, peep) := Annotate(st.view, peepholes[w], left[0]);
            peepholes[w] := peep;
            outputs[o] := Partial;
            routines[w] := Routine(o, Listing(left[1..], notes + [note], f));
          } else {
            match st.writeFiles(i, notes) {
              case Some(e) =>
                outputs[o] := Failed(e);
                routines[w] := Routine(o + routines.Length, Idle);
              case None =>
                outputs[o] := Partial;
                routines[w] := Routine(o, Replaying(f.replayed, []));
            }
          }
        case Replaying(left, notes) =>
          if left != [] {
            var (note, peep) := Annotate(st.view, peepholes[w], left[0]);
            peepholes[w] := peep;
            outputs[o] := Partial;
            routines[w] := Routine(o, Replaying(left[1..], notes + [note]));
          } else {
            outputs[o] := Ready(st.record(i, notes));
            routines[w] := Routine(o + routines.Length, Idle);
          }
      }
    }

    /** Clears the slots of a chunk, starts the workers and waits for them; the scheduler is free to
        pick any worker that has something to do. */
    method RunChunk(st: Stage, first: nat, len: nat)
      requires Valid() && len <= outputs.Length && first + len <= |st.ranges|
      modifies routines, peepholes, outputs
      ensures outputs[..len] == Computed(st, first, len)
    {
      hide Work, Step, SlotKept, Kept, TotalSlots, TotalSteps, Computed;
      for i := 0 to len
        invariant forall j :: 0 <= j < i ==> outputs[j] == Blank
      {
        outputs[i] := Blank;
      }
      for w := 0 to routines.Length
        invariant forall j :: 0 <= j < len ==> outputs[j] == Blank
        invariant forall u :: 0 <= u < w ==> routines[u] == Routine(u, Idle)
      {
        routines[w] := Routine(w, Idle);
      }
      assert Now() == StartView(routines.Length, peepholes[..], outputs[..]);
      StartKept(st, first, len, routines.Length, peepholes[..], outputs[..]);
      while exists w :: 0 <= w < routines.Length && routines[w].next < len
        invariant Kept(st, first, len, Now())
        decreases TotalSlots(len, Now().routines), TotalSteps(st, first, len, Now().routines)
      {
        var w :| 0 <= w < routines.Length && routines[w].next < len;
        KeptShaped(st, first, len, Now());
        StepProgress(st, first, len, Now(), w);
        KeptStep(st, first, len, Now(), w);
        Advance(st, first, len, w);
      }
      AllDone(st, first, len, Now());
      assert outputs[..len] == Now().slots[..len];
    }

    /** Writes a chunk to the shared outputs. */
    method Drain(graph: bool, len: nat, before: Drained) returns (d: Drained, error: Option<string>)
      requires len <= outputs.Length
      ensures DrainResult(d, error) == DrainFrom(graph, before, outputs[..len])
    {
      hide DrainFrom, WriteRecord;
      d := before;
      for i := 0 to len
        invariant DrainFrom(graph, before, outputs[..len]) == DrainFrom(graph, d, outputs[i..len])
      {
        DrainUnfolds(graph, d, outputs[i..len]);
        assert outputs[i..len][1..] == outputs[i + 1..len];
        match outputs[i] {
          case Failed(e) => return d, Some(e);
          case Skipped =>
          case _ =>
            d, error := Write(graph, RecordOf(outputs[i]), d);
            if error.Some? { return; }
        }
      }
      DrainUnfolds(graph, d, []);
      error := None;
    }
  }

  lemma KeptShaped(st: Stage, first: nat, len: nat, v: View)
    requires Kept(st, first, len, v)
    ensures v.Shaped(len)
  {
  }

  lemma DrainUnfolds(graph: bool, d: Drained, slots: seq<Slot>)
    ensures DrainFrom(graph, d, slots) ==
      if slots == [] then DrainResult(d, None)
      else if slots[0].Failed? then DrainResult(d, Some(slots[0].error))
      else if slots[0].Skipped? then DrainFrom(graph, d, slots[1..])
      else
        var w := WriteRecord(graph, d, RecordOf(slots[0]));
        if w.error.Some? then w else DrainFrom(graph, w.out, slots[1..])
  {
  }

  method WriteEdges(edges: seq<Edge>, fault: Option<Fault>, before: Drained) returns (d: Drained, error: Option<string>)
    ensures match fault
            case Some(InEdge(at, e)) =>
              if at < |edges| then d == WithEdges(before, edges[..at]) && error == Some(e)
              else d == WithEdges(before, edges) && error == None
            case _ => d == WithEdges(before, edges) && error == None
  {
    d := before;
    for k := 0 to |edges|
      invariant d == WithEdges(before, edges[..k])
      invariant fault.Some? && fault.value.InEdge? ==> k <= fault.value.at
    {
      if fault.Some? && fault.value.InEdge? && fault.value.at == k { return d, Some(fault.value.error); }
      var e := edges[k];
      assert edges[..k + 1][..k] == edges[..k];
      d := d.(callEdges := d.callEdges + [e], totalEdges := d.totalEdges + 1);
      if e.blr {
        d := d.(totalBLR := d.totalBLR + 1);
        if e.via != "" {
          d := d.(annotatedBLR := d.annotatedBLR + 1);
        } else {
          d := d.(unannotatedBLR := d.unannotatedBLR + 1);
        }
      }
    }
    assert edges[..|edges|] == edges;
    error := None;
  }

  method WriteStrings(strings: seq<string>, fault: Option<Fault>, before: Drained)
    returns (d: Drained, error: Option<string>)
    ensures match fault
            case Some(InString(at, e)) =>
              if at < |strings| then d == WithStrings(before, strings[..at]) && error == Some(e)
              else d == WithStrings(before, strings) && error == None
            case _ => d == WithStrings(before, strings) && error == None
  {
    d := before;
    for k := 0 to |strings|
      invariant d == WithStrings(before, strings[..k])
      invariant fault.Some? && fault.value.InString? ==> k <= fault.value.at
    {
      if fault.Some? && fault.value.InString? && fault.value.at == k { return d, Some(fault.value.error); }
      d := d.(stringRefs := d.stringRefs + [strings[k]], totalStrings := d.totalStrings + 1);
    }
    assert strings[..|strings|] == strings;
    error := None;
  }

  method WriteUnresolved(unresolved: seq<string>, fault: Option<Fault>, before: Drained)
    returns (d: Drained, error: Option<string>)
    ensures match fault
            case Some(InUnresolved(at, e)) =>
              if at < |unresolved| then d == WithUnresolved(before, unresolved[..at]) && error == Some(e)
              else d == WithUnresolved(before, unresolved) && error == None
            case _ => d == WithUnresolved(before, unresolved) && error == None
  {
    d := before;
    for k := 0 to |unresolved|
      invariant d == WithUnresolved(before, unresolved[..k])
      invariant fault.Some? && fault.value.InUnresolved? ==> k <= fault.value.at
    {
      if fault.Some? && fault.value.InUnresolved? && fault.value.at == k { return d, Some(fault.value.error); }
      d := d.(unresolved := d.unresolved + [unresolved[k]], totalUnresolved := d.totalUnresolved + 1);
    }
    assert unresolved[..|unresolved|] == unresolved;
    error := None;
  }

  /** One record, edge by edge and string by string, up to the first write that fails. */
  method Write(graph: bool, r: Record, before: Drained) returns (d: Drained, error: Option<string>)
    ensures DrainResult(d, error) == WriteRecord(graph, before, r)
  {
    hide WithEdges;
    d := before;
    if r.fault.Some? && r.fault.value.InIndex? { return d, Some(r.fault.value.error); }
    d := d.(index := d.index + [r.entry]);
    if r.fault.Some? && r.fault.value.InFunctions? { return d, Some(r.fault.value.error); }
    d := d.(functions := d.functions + [r.func]);
    d, error := WriteEdges(r.edges, r.fault, d);
    if error.Some? { return; }
    if graph {
      if r.hasCfg {
        if r.fault.Some? && r.fault.value.InCfg? { return d, Some(r.fault.value.error); }
        d := d.(cfgCount := d.cfgCount + 1);
      }
      d := d.(graphFunctions := d.graphFunctions + [r.func], graphEdges := d.graphEdges + r.edges);
    }
    d, error := WriteStrings(r.strings, r.fault, d);
    if error.Some? { return; }
    d, error := WriteUnresolved(r.unresolved, r.fault, d);
    if error.Some? { return; }
    d := d.(written := d.written + 1);
  }

  /** The number of functions looked at; a limit of zero or less is none. */
  function Count(st: Stage, limit: int): (n: nat)
    ensures 0 < limit <= |st.ranges| ==> n == limit
    ensures limit <= 0 || limit > |st.ranges| ==> n == |st.ranges|
  {
    if 0 < limit < |st.ranges| then limit else |st.ranges|
  }

  function Workers(cpus: int): (n: nat)
    ensures 1 <= n <= 4
  {
    if cpus > 4 then 4 else if cpus < 1 then 1 else cpus
  }

  const CHUNK_PER_WORKER := 8

  /** Chunk after chunk; what is drained is what a single pass over the ranges drains, whatever the
      number of processors and the scheduling. */
  method RunDisasmStage(st: Stage, cpus: int, limit: int, graph: bool) returns (d: Drained, error: Option<string>)
    ensures DrainResult(d, error) == DrainFrom(graph, NOTHING, Computed(st, 0, Count(st, limit)))
  {
    hide DrainFrom, Computed;
    var n := Count(st, limit);
    var chunkSize := Workers(cpus) * CHUNK_PER_WORKER;
    var pool := new Pool(Workers(cpus), chunkSize);
    d, error := NOTHING, None;
    var base := 0;
    while base < n
      invariant error == None && base <= n && pool.Valid() && pool.outputs.Length == chunkSize
      invariant fresh(pool) && fresh(pool.routines) && fresh(pool.peepholes) && fresh(pool.outputs)
      invariant DrainFrom(graph, NOTHING, Computed(st, 0, n)) == DrainFrom(graph, d, Computed(st, base, n - base))
      decreases n - base
    {
      var end := if base + chunkSize > n then n else base + chunkSize;
      pool.RunChunk(st, base, end - base);
      ComputedSplit(st, base, end - base, n - end);
      DrainAppend(graph, d, Computed(st, base, end - base), Computed(st, end, n - end));
      d, error := pool.Drain(graph, end - base, d);
      if error.Some? { return; }
      base := end;
    }
    NothingLeft(graph, d, st, n);
  }

  lemma ComputedSplit(st: Stage, first: nat, a: nat, b: nat)
    requires first + a + b <= |st.ranges|
    ensures Computed(st, first, a + b) == Computed(st, first, a) + Computed(st, first + a, b)
  {
    hide Sequential;
  }

  lemma NothingLeft(graph: bool, d: Drained, st: Stage, n: nat)
    requires n <= |st.ranges|
    ensures DrainFrom(graph, d, Computed(st, n, 0)) == DrainResult(d, None)
  {
  }

  /** The stage as its users see it: the files are the lines of the records of the functions below the first
      one at which it ends, in input order, and what is left of that one; they are the whole records and no
      more if and only if it ends for a worker's failure or at a record's first write. */
  lemma StageIsSequential(st: Stage, limit: int, graph: bool)
    ensures var slots := Computed(st, 0, Count(st, limit));
            var k, r := FirstStop(graph, slots), DrainFrom(graph, NOTHING, slots);
            && Lines(r.out) == AllLines(Records(slots[..k])).Then(LeftAt(graph, slots, k))
            && (Lines(r.out) == AllLines(Records(slots[..k])) <==> Clean(graph, slots, k))
            && Balanced(r.out) && (Complete(r.out) <==> Clean(graph, slots, k))
            && (GraphFollows(graph, r.out) <==> !BeforeGraph(graph, slots, k))
            && (r.error == None <==> forall i :: 0 <= i < |slots| ==> !Stops(graph, slots[i]))
            && (r.error.Some? ==> k < |slots| && r.error.value == ErrorOf(graph, slots[k]))
  {
    hide Lines, DrainFrom, Balanced, Complete, GraphFollows, Records, FirstStop, AllLines, Stops, ErrorOf;
    hide LeftAt, Clean, BeforeGraph;
    var slots := Computed(st, 0, Count(st, limit));
    AllAreComputed(st, Count(st, limit));
    DrainedInOrder(graph, NOTHING, slots);
    ExactIffClean(graph, NOTHING, slots);
    NothingBefore(AllLines(Records(slots[..FirstStop(graph, slots)])));
    NothingBalanced();
    DrainBalanced(graph, NOTHING, slots);
    DrainGraph(graph, NOTHING, slots);
  }

  lemma NothingBefore(c: Columns)
    ensures Lines(NOTHING).Then(c) == c
  {
  }

  lemma AllAreComputed(st: Stage, n: nat)
    requires n <= |st.ranges|
    ensures AllComputed(Computed(st, 0, n))
  {
  }

  lemma NothingBalanced()
    ensures Balanced(NOTHING) && Complete(NOTHING) && forall graph :: GraphFollows(graph, NOTHING)
  {
  }
}
