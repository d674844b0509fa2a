/** Breakable CUDA-graph capture and replay (overlay/vllm/compilation/breakable_cudagraph.py).

    A program launches kernels and calls decorated ops. While it is captured, kernels go into the open
    graph instead of running; a decorated op closes the graph, runs eagerly, and opens a new one. */
module BreakableCudagraph {
  import opened Wrappers

  /** The contents of the static buffers. */
  type Memory = map<nat, int>

  datatype Device = Device(effect: (nat, Memory) -> Memory)

  /** What a model forward does: launch a kernel, call a decorated op, or fail. */
  datatype Op = Launch(kernel: nat) | Call(body: seq<Op>) | Raise

  /** A graph replays the kernels it recorded; an eager segment calls its function again. */
  datatype Segment = Graph(kernels: seq<nat>) | Eager(body: seq<Op>)

  datatype Mode = NONE | PIECEWISE | FULL

  // ---------------------------------------------------------------------------------------
  // Programs
  // ---------------------------------------------------------------------------------------

  function RunKernels(dev: Device, kernels: seq<nat>, m: Memory): Memory {
    if kernels == [] then m else RunKernels(dev, kernels[1..], dev.effect(kernels[0], m))
  }

  /** The kernels of a program, in order. */
  function Flatten(ops: seq<Op>): seq<nat> {
    if ops == [] then [] else
      (match ops[0]
       case Launch(k) => [k]
       case Call(body) => Flatten(body)
       case Raise => [])
      + Flatten(ops[1..])
  }

  predicate Raises(ops: seq<Op>) {
    ops != [] &&
    ((match ops[0]
      case Launch(_) => false
      case Call(body) => Raises(body)
      case Raise => true)
     || Raises(ops[1..]))
  }

  /** The kernels a program runs before it ends or raises. */
  function Executed(ops: seq<Op>): seq<nat> {
    if ops == [] then [] else
      match ops[0]
      case Launch(k) => [k] + Executed(ops[1..])
      case Raise => []
      case Call(body) => Executed(body) + if Raises(body) then [] else Executed(ops[1..])
  }

  lemma {:induction false} AllExecuted(ops: seq<Op>)
    requires !Raises(ops)
    ensures Executed(ops) == Flatten(ops)
    decreases ops
  {
    if ops != [] {
      if ops[0].Call? { AllExecuted(ops[0].body); }
      AllExecuted(ops[1..]);
    }
  }

  /** Decorated ops called by the program itself, not from inside another one. */
  function OuterCalls(ops: seq<Op>): nat {
    if ops == [] then 0 else (if ops[0].Call? then 1 else 0) + OuterCalls(ops[1..])
  }

  // ---------------------------------------------------------------------------------------
  // Capturing, as a function of the state
  // ---------------------------------------------------------------------------------------

  datatype Recording = Recording(segments: seq<Segment>, graphs: nat, breaks: nat, open: Option<seq<nat>>)

  function Ended(r: Recording): Recording {
    if r.open.None? then r
    else Recording(r.segments + [Graph(r.open.value)], r.graphs + 1, r.breaks, None)
  }

  /** A thread: its memory, and the capture in progress. */
  datatype Machine = Machine(memory: Memory, capture: Option<Recording>)
  {
    predicate Capturing() { capture.Some? && capture.value.open.Some? }
  }

  /** Runs a program on a thread; in FULL mode decorated ops do not break the graph. False if it raised. */
  function Run(dev: Device, full: bool, ops: seq<Op>, m: Machine): (bool, Machine)
    decreases ops
  {
    if ops == [] then (true, m) else
      var (ok, next) := RunOne(dev, full, ops[0], m);
      if ok then Run(dev, full, ops[1..], next) else (false, next)
  }

  function RunOne(dev: Device, full: bool, op: Op, m: Machine): (bool, Machine)
    decreases op
  {
    match op
    case Launch(k) =>
      if m.Capturing() then
        (true, m.(capture := Some(m.capture.value.(open := Some(m.capture.value.open.value + [k])))))
      else (true, m.(memory := dev.effect(k, m.memory)))
    case Raise => (false, m)
    case Call(body) =>
      if !m.Capturing() || full then Run(dev, full, body, m)
      else
        var (ok, after) := Run(dev, full, body, m.(capture := Some(Ended(m.capture.value))));
        if !ok || after.capture.None? then (ok, after) else
          var r := after.capture.value;
          (true, after.(capture := Some(Recording(r.segments + [Eager(body)], r.graphs, r.breaks + 1, Some([])))))
  }

  // ---------------------------------------------------------------------------------------
  // The capture object and the thread
  // ---------------------------------------------------------------------------------------

  class BreakableCapture {
    var segments: seq<Segment>
    var numGraphs: nat
    var numEagerBreaks: nat
    var currentGraph: Option<seq<nat>>
    var capturing: bool

    ghost predicate Valid() reads this { capturing <==> currentGraph.Some? }

    ghost function View(): Recording reads this { Recording(segments, numGraphs, numEagerBreaks, currentGraph) }

    constructor ()
      ensures Valid() && View() == Recording([], 0, 0, None)
    {
      segments, numGraphs, numEagerBreaks, currentGraph, capturing := [], 0, 0, None, false;
    }

    method BeginSegment()
      requires Valid() && !capturing
      modifies this
      ensures Valid() && View() == old(View()).(open := Some([]))
    {
      currentGraph, capturing := Some([]), true;
    }

    method EndSegment()
      requires Valid()
      modifies this
      ensures Valid() && View() == Ended(old(View())) && !capturing
    {
      if !capturing { return; }
      segments := segments + [Graph(currentGraph.value)];
      numGraphs, currentGraph, capturing := numGraphs + 1, None, false;
    }
  }

  /** One thread: `active` is the capture in progress, `mode` that of the forward context, if any. */
  class Thread {
    const dev: Device
    var memory: Memory
    var active: BreakableCapture?
    var mode: Option<Mode>

    ghost predicate Valid()
      reads this, if active == null then {} else {active}
    {
      active != null ==> active.Valid()
    }

    ghost function View(): Machine
      reads this, if active == null then {} else {active}
    {
      Machine(memory, if active == null then None else Some(active.View()))
    }

    constructor (dev: Device, memory: Memory)
      ensures Valid() && active == null && mode == None && this.dev == dev && View() == Machine(memory, None)
    {
      this.dev, this.memory, active, mode := dev, memory, null, None;
    }

    method LaunchKernel(k: nat)
      requires Valid()
      modifies this, if active == null then {} else {active}
      ensures Valid() && active == old(active) && mode == old(mode)
      ensures (true, View()) == RunOne(dev, mode == Some(FULL), Op.Launch(k), old(View()))
    {
      if active != null && active.capturing {
        active.currentGraph := Some(active.currentGraph.value + [k]);
      } else {
        memory := dev.effect(k, memory);
      }
    }

    /** `add_eager`: close the graph, run the function, record it, open a new graph. */
    method AddEager(body: seq<Op>) returns (ok: bool)
      requires Valid() && active != null && active.capturing && mode != Some(FULL)
      modifies this, if active == null then {} else {active}
      ensures Valid() && active == old(active) && mode == old(mode)
      ensures (ok, View()) == RunOne(dev, false, Call(body), old(View()))
      decreases body, 1
    {
      ghost var before := View();
      active.EndSegment();
      assert View() == before.(capture := Some(Ended(before.capture.value)));
      ghost var closed := View();
      ok := RunOps(body);
      assert (ok, View()) == Run(dev, false, body, closed);
      if ok {
        NotOpened(dev, false, body, closed);
        active.segments := active.segments + [Eager(body)];
        active.numEagerBreaks := active.numEagerBreaks + 1;
        active.BeginSegment();
      }
    }

    /** The wrapper around a decorated op. */
    method CallDecorated(body: seq<Op>) returns (ok: bool)
      requires Valid()
      modifies this, if active == null then {} else {active}
      ensures Valid() && active == old(active) && mode == old(mode)
      ensures (ok, View()) == RunOne(dev, mode == Some(FULL), Call(body), old(View()))
      decreases body, 2
    {
      if active == null {
        ok := RunOps(body);
      } else if !active.capturing {
        ok := RunOps(body);
      } else if mode == Some(FULL) {
        ok := RunOps(body);
      } else {
        ok := AddEager(body);
      }
    }

    method RunOps(ops: seq<Op>) returns (ok: bool)
      requires Valid()
      modifies this, if active == null then {} else {active}
      ensures Valid() && active == old(active) && mode == old(mode)
      ensures (ok, View()) == Run(dev, mode == Some(FULL), ops, old(View()))
      decreases ops, 0
    {
      ghost var full, start := mode == Some(FULL), View();
      for i := 0 to |ops|
        invariant Valid() && active == old(active) && mode == old(mode)
        invariant (true, View()) == Run(dev, full, ops[..i], start)
      {
        assert ops[..i + 1] == ops[..i] + [ops[i]];
        RunAppend(dev, full, ops[..i], ops[i], start);
        match ops[i] {
          case Launch(k) => LaunchKernel(k);
          case Call(body) =>
            ok := CallDecorated(body);
            if !ok {
              RunStops(dev, full, ops, i + 1, start);
              return false;
            }
          case Raise =>
            RunStops(dev, full, ops, i + 1, start);
            return false;
        }
      }
      assert ops[..|ops|] == ops;
      ok := true;
    }

    /** Entering a capture context; a nested one is an error. */
    method Enter(capture: BreakableCapture) returns (ok: bool)
      requires Valid() && capture.Valid() && !capture.capturing
      modifies this`active, capture
      ensures ok <==> old(active) == null
      ensures !ok ==> active == old(active) && capture.View() == old(capture.View()) && capture.Valid() && Valid()
      ensures ok ==>
                && active == capture && Valid()
                && View() == Machine(memory, Some(old(capture.View()).(open := Some([]))))
    {
      if active != null { return false; }
      active := capture;
      capture.BeginSegment();
      ok := true;
    }

    /** Leaving it, whether or not the program raised. */
    method Exit()
      requires Valid() && active != null
      modifies this`active, active
      ensures active == null && Valid() && old(active).Valid() && old(active).View() == Ended(old(active.View()))
    {
      active.EndSegment();
      active := null;
    }

    /** The body of the with-statement: enter, run the program, leave. A nested one fails when it is entered. */
    method CaptureOps(ops: seq<Op>) returns (ok: bool, capture: BreakableCapture)
      requires Valid()
      modifies this
      ensures fresh(capture) && capture.Valid() && Valid() && active == old(active) && mode == old(mode)
      ensures active != null ==> !ok && View() == old(View())
      ensures active == null ==>
                (ok, Machine(memory, Some(capture.View()))) == CaptureProgram(dev, mode == Some(FULL), ops, old(memory))
    {
      capture := new BreakableCapture();
      var entered := Enter(capture);
      if !entered { return false, capture; }
      ok := RunOps(ops);
      Exit();
    }

    /** Replay stops where a recorded function raises. A capture in progress stays as it is, as no graph is open. */
    method ReplayCapture(capture: BreakableCapture) returns (ok: bool)
      requires Valid() && capture.Valid() && capture != active && !View().Capturing()
      modifies this, if active == null then {} else {active}
      ensures Valid() && active == old(active) && mode == old(mode) && View().capture == old(View()).capture
      ensures (ok, memory) == Replay(dev, mode == Some(FULL), capture.segments, old(memory))
    {
      ghost var full, segments, held := mode == Some(FULL), capture.segments, View().capture;
      for i := 0 to |capture.segments|
        invariant Valid() && active == old(active) && mode == old(mode) && capture.segments == segments
        invariant View().capture == held
        invariant (true, memory) == Replay(dev, full, segments[..i], old(memory))
      {
        assert segments[..i + 1][..i] == segments[..i];
        match capture.segments[i] {
          case Graph(kernels) => memory := RunKernels(dev, kernels, memory);
          case Eager(body) =>
            assert View() == Machine(memory, held);
            RunBeside(dev, full, body, View());
            var ran := RunOps(body);
            if !ran {
              ReplayStops(dev, full, segments, i + 1, old(memory));
              return false;
            }
        }
      }
      assert segments[..|segments|] == segments;
      ok := true;
    }
  }

  // ---------------------------------------------------------------------------------------
  // Runs, step by step
  // ---------------------------------------------------------------------------------------

  lemma {:induction false} RunAppend(dev: Device, full: bool, ops: seq<Op>, op: Op, m: Machine)
    ensures var (ok, mid) := Run(dev, full, ops, m);
            Run(dev, full, ops + [op], m) == if ok then RunOne(dev, full, op, mid) else (false, mid)
    decreases |ops|
  {
    if ops == [] {
      assert (ops + [op])[1..] == [];
    } else {
      assert (ops + [op])[1..] == ops[1..] + [op];
      RunAppend(dev, full, ops[1..], op, RunOne(dev, full, ops[0], m).1);
    }
  }

  /** A program that raised stays where it is. */
  lemma {:induction false} RunStops(dev: Device, full: bool, ops: seq<Op>, i: nat, m: Machine)
    requires i <= |ops| && !Run(dev, full, ops[..i], m).0
    ensures Run(dev, full, ops, m) == Run(dev, full, ops[..i], m)
    decreases |ops| - i
  {
    if i == |ops| {
      assert ops[..i] == ops;
    } else {
      assert ops[..i + 1] == ops[..i] + [ops[i]];
      RunAppend(dev, full, ops[..i], ops[i], m);
      RunStops(dev, full, ops, i + 1, m);
    }
  }

  /** A program run between graphs opens none. */
  lemma {:induction false} NotOpened(dev: Device, full: bool, ops: seq<Op>, m: Machine)
    requires !m.Capturing()
    ensures Run(dev, full, ops, m).1.capture == m.capture
    decreases ops
  {
    if ops != [] {
      if ops[0].Call? {
        NotOpened(dev, full, ops[0].body, m);
      }
      var (ok, next) := RunOne(dev, full, ops[0], m);
      if ok {
        NotOpened(dev, full, ops[1..], next);
      }
    }
  }

  /** With no graph open a program does what it does outside a capture. */
  lemma {:induction false} RunBeside(dev: Device, full: bool, ops: seq<Op>, m: Machine)
    requires !m.Capturing()
    ensures
      var (ok, after) := Run(dev, full, ops, Machine(m.memory, None));
      Run(dev, full, ops, m) == (ok, m.(memory := after.memory))
    decreases ops
  {
    if ops != [] {
      if ops[0].Call? {
        RunBeside(dev, full, ops[0].body, m);
        NotOpened(dev, full, ops[0].body, Machine(m.memory, None));
      }
      var (ok, next) := RunOne(dev, full, ops[0], m);
      if ok {
        RunBeside(dev, full, ops[1..], next);
      }
    }
  }

  // ---------------------------------------------------------------------------------------
  // What a run records
  // ---------------------------------------------------------------------------------------

  /** The kernels the segments stand for, in order. */
  function FlattenSegments(segments: seq<Segment>): seq<nat> {
    if segments == [] then [] else
      FlattenSegments(segments[..|segments| - 1]) + SegmentKernels(segments[|segments| - 1])
  }

  function SegmentKernels(s: Segment): seq<nat> {
    match s
    case Graph(kernels) => kernels
    case Eager(body) => Flatten(body)
  }

  /** Graph, eager, graph, eager, ...: the recorded counts are those of the segments, and no recorded
      function raises. */
  ghost predicate Alternates(r: Recording) {
    && |r.segments| == r.graphs + r.breaks
    && (r.graphs == r.breaks || r.graphs == r.breaks + 1)
    && (r.open.Some? ==> r.graphs == r.breaks)
    && (forall i | 0 <= i < |r.segments| :: if i % 2 == 0 then r.segments[i].Graph? else r.segments[i].Eager?)
    && (forall i | 0 <= i < |r.segments| && r.segments[i].Eager? :: !Raises(r.segments[i].body))
  }

  /** Everything recorded so far, with the graph still open. */
  function Recorded(r: Recording): seq<nat> {
    FlattenSegments(r.segments) + if r.open.Some? then r.open.value else []
  }

  lemma {:induction false} RunsExactly(dev: Device, a: seq<nat>, b: seq<nat>, m: Memory)
    ensures RunKernels(dev, a + b, m) == RunKernels(dev, b, RunKernels(dev, a, m))
    decreases |a|
  {
    if a == [] {
      assert a + b == b;
    } else {
      assert (a + b)[1..] == a[1..] + b;
      RunsExactly(dev, a[1..], b, dev.effect(a[0], m));
    }
  }

  /** With no graph open a program runs its kernels up to where it raises, and all of them if it does not. */
  lemma {:induction false} EagerRun(dev: Device, full: bool, ops: seq<Op>, m: Machine)
    requires !m.Capturing()
    ensures Run(dev, full, ops, m) == (!Raises(ops), m.(memory := RunKernels(dev, Executed(ops), m.memory)))
    ensures !Raises(ops) ==> Executed(ops) == Flatten(ops)
    decreases ops
  {
    if !Raises(ops) { AllExecuted(ops); }
    if ops != [] {
      match ops[0]
      case Launch(k) =>
        EagerRun(dev, full, ops[1..], m.(memory := dev.effect(k, m.memory)));
        assert ([k] + Executed(ops[1..]))[1..] == Executed(ops[1..]);
      case Raise =>
      case Call(body) =>
        EagerRun(dev, full, body, m);
        if !Raises(body) {
          var after := m.(memory := RunKernels(dev, Executed(body), m.memory));
          EagerRun(dev, full, ops[1..], after);
          RunsExactly(dev, Executed(body), Executed(ops[1..]), m.memory);
        } else {
          assert Executed(body) + [] == Executed(body);
        }
    }
  }

  lemma FlattenOne(op: Op)
    ensures Flatten([op]) == match op case Launch(k) => [k] case Call(body) => Flatten(body) case Raise => []
    ensures Raises([op]) == match op case Launch(k) => false case Call(body) => Raises(body) case Raise => true
  {
    assert [op][1..] == [];
  }

  lemma FlattenAppend(segments: seq<Segment>, s: Segment)
    ensures FlattenSegments(segments + [s]) == FlattenSegments(segments) + SegmentKernels(s)
  {
    assert (segments + [s])[..|segments|] == segments;
  }

  /** What capturing a program has added to a recording. */
  ghost predicate Extends(full: bool, before: Recording, after: Recording, ops: seq<Op>) {
    && after.open.Some? && Recorded(after) == Recorded(before) + Flatten(ops)
    && after.breaks == before.breaks + (if full then 0 else OuterCalls(ops))
    && (full ==> after.segments == before.segments)
  }

  /** Capturing a program records exactly its kernels, in order; only the decorated ops it calls itself
      break the graph, and none in FULL mode. A program that raises leaves a well-formed recording. */
  lemma {:induction false} CaptureRun(dev: Device, full: bool, ops: seq<Op>, m: Machine)
    requires m.Capturing() && Alternates(m.capture.value)
    ensures var (ok, after) := Run(dev, full, ops, m);
            && ok == !Raises(ops) && after.capture.Some? && Alternates(after.capture.value)
            && (ok ==> Extends(full, m.capture.value, after.capture.value, ops))
    decreases ops
  {
    hide Extends, Alternates, RunOne, Raises;
    if ops == [] {
      ExtendsNothing(full, m.capture.value);
    } else {
      CaptureOne(dev, full, ops[0], m);
      RaisesSplit(ops);
      var (ok, next) := RunOne(dev, full, ops[0], m);
      if ok {
        ExtendsOpen(full, m.capture.value, next.capture.value, [ops[0]]);
        CaptureRun(dev, full, ops[1..], next);
        var (done, after) := Run(dev, full, ops[1..], next);
        if done {
          ExtendsCompose(full, m.capture.value, next.capture.value, after.capture.value, ops);
        }
      }
    }
  }

  lemma RaisesSplit(ops: seq<Op>)
    ensures Raises(ops) == (ops != [] && (Raises([ops[0]]) || Raises(ops[1..])))
  {
    if ops != [] { FlattenOne(ops[0]); }
  }

  lemma ExtendsNothing(full: bool, r: Recording)
    requires r.open.Some?
    ensures Extends(full, r, r, []) && !Raises([])
  {
    assert Recorded(r) + [] == Recorded(r);
  }

  lemma ExtendsOpen(full: bool, a: Recording, b: Recording, ops: seq<Op>)
    requires Extends(full, a, b, ops)
    ensures b.open.Some?
  {
  }

  lemma FlattenSplit(ops: seq<Op>)
    requires ops != []
    ensures Flatten(ops) == Flatten([ops[0]]) + Flatten(ops[1..])
    ensures OuterCalls(ops) == OuterCalls([ops[0]]) + OuterCalls(ops[1..])
  {
    FlattenOne(ops[0]);
    assert [ops[0]][1..] == [];
  }

  lemma ExtendsCompose(full: bool, a: Recording, b: Recording, c: Recording, ops: seq<Op>)
    requires ops != [] && Extends(full, a, b, [ops[0]]) && Extends(full, b, c, ops[1..])
    ensures Extends(full, a, c, ops)
  {
    FlattenSplit(ops);
    hide Flatten, OuterCalls, FlattenSegments, Recorded;
    AppendAssociates(Recorded(a), Flatten([ops[0]]), Flatten(ops[1..]));
  }

  lemma AppendAssociates(a: seq<nat>, b: seq<nat>, c: seq<nat>)
    ensures a + b + c == a + (b + c)
  {
  }

  lemma CaptureOne(dev: Device, full: bool, op: Op, m: Machine)
    requires m.Capturing() && Alternates(m.capture.value)
    ensures var (ok, after) := RunOne(dev, full, op, m);
            && ok == !Raises([op]) && after.capture.Some? && Alternates(after.capture.value)
            && (ok ==> Extends(full, m.capture.value, after.capture.value, [op]))
    decreases op
  {
    FlattenOne(op);
    match op
    case Launch(k) =>
    case Raise =>
    case Call(body) =>
      if full {
        CaptureRun(dev, full, body, m);
      } else {
        BreakRecords(dev, body, m);
      }
  }

  /** A break: the graph so far, the function, and a new empty graph. */
  lemma BreakRecords(dev: Device, body: seq<Op>, m: Machine)
    requires m.Capturing() && Alternates(m.capture.value)
    ensures var (ok, after) := RunOne(dev, false, Call(body), m);
            && ok == !Raises(body) && after.capture.Some? && Alternates(after.capture.value)
            && (ok ==> Extends(false, m.capture.value, after.capture.value, [Call(body)]))
  {
    var r := m.capture.value;
    var closed := m.(capture := Some(Ended(r)));
    NotOpened(dev, false, body, closed);
    EagerRun(dev, false, body, closed);
    BreakExtends(r, body);
    hide Alternates, Extends, Run;
  }

  function Broken(r: Recording, body: seq<Op>): Recording {
    Recording(Ended(r).segments + [Eager(body)], Ended(r).graphs, r.breaks + 1, Some([]))
  }

  lemma BreakRecorded(r: Recording, body: seq<Op>)
    requires r.open.Some?
    ensures Recorded(Broken(r, body)) == Recorded(r) + Flatten(body)
  {
    FlattenAppend(r.segments, Graph(r.open.value));
    FlattenAppend(r.segments + [Graph(r.open.value)], Eager(body));
    hide FlattenSegments, Flatten;
    AppendAssociates(Recorded(r), Flatten(body), []);
    assert Flatten(body) + [] == Flatten(body);
  }

  lemma BreakExtends(r: Recording, body: seq<Op>)
    requires r.open.Some? && Alternates(r)
    ensures Alternates(Ended(r))
    ensures !Raises(body) ==> Alternates(Broken(r, body))
    ensures Extends(false, r, Broken(r, body), [Call(body)])
  {
    BreakAlternates(r, body);
    BreakRecorded(r, body);
    FlattenOne(Call(body));
    assert OuterCalls([Call(body)]) == 1 by { assert [Call(body)][1..] == []; }
    hide Alternates, Raises, FlattenSegments, Flatten, OuterCalls, Recorded;
  }

  lemma BreakAlternates(r: Recording, body: seq<Op>)
    requires r.open.Some? && Alternates(r)
    ensures Alternates(Ended(r))
    ensures !Raises(body) ==> Alternates(Broken(r, body))
  {
    hide Raises;
    var n := |r.segments|;
    assert n == 2 * r.graphs && n % 2 == 0 && (n + 1) % 2 == 1;
    assert Ended(r).segments == r.segments + [Graph(r.open.value)];
    assert Broken(r, body).segments == r.segments + [Graph(r.open.value), Eager(body)];
  }

  /** The kernels that capturing a program runs, those of the breaks, up to where one raises. */
  function BreakKernels(ops: seq<Op>): seq<nat> {
    if ops == [] then [] else
      match ops[0]
      case Launch(_) => BreakKernels(ops[1..])
      case Raise => []
      case Call(body) => Executed(body) + if Raises(body) then [] else BreakKernels(ops[1..])
  }

  /** While a program is captured only its breaks touch memory, and nothing does in FULL mode. */
  lemma {:induction false} CaptureMemory(dev: Device, full: bool, ops: seq<Op>, m: Machine)
    requires m.Capturing()
    ensures var (ok, after) := Run(dev, full, ops, m);
            && after.memory == (if full then m.memory else RunKernels(dev, BreakKernels(ops), m.memory))
            && (ok ==> after.Capturing()) && ok == !Raises(ops)
    decreases ops
  {
    if ops != [] {
      match ops[0]
      case Launch(k) => CaptureMemory(dev, full, ops[1..], RunOne(dev, full, ops[0], m).1);
      case Raise =>
      case Call(body) =>
        if full {
          CaptureMemory(dev, full, body, m);
        } else {
          EagerRun(dev, full, body, m.(capture := Some(Ended(m.capture.value))));
        }
        var (ok, next) := RunOne(dev, full, ops[0], m);
        if ok {
          CaptureMemory(dev, full, ops[1..], next);
          RunsExactly(dev, Executed(body), BreakKernels(ops[1..]), m.memory);
        } else {
          assert Executed(body) + [] == Executed(body);
        }
    }
  }

  // ---------------------------------------------------------------------------------------
  // Captures and replays
  // ---------------------------------------------------------------------------------------

  /** A capture that has been closed: an odd number of segments, starting and ending with a graph. */
  ghost predicate Complete(r: Recording) { Alternates(r) && r.open.None? && r.graphs == r.breaks + 1 }

  function Begun(): Recording { Recording([], 0, 0, Some([])) }

  /** Capturing a program, from entering the context to leaving it. */
  function CaptureProgram(dev: Device, full: bool, ops: seq<Op>, m: Memory): (bool, Machine) {
    var (ok, after) := Run(dev, full, ops, Machine(m, Some(Begun())));
    (ok, if after.capture.None? then after else after.(capture := Some(Ended(after.capture.value))))
  }

  ghost predicate Records(full: bool, r: Recording, ops: seq<Op>) {
    && Complete(r) && FlattenSegments(r.segments) == Flatten(ops)
    && r.breaks == (if full then 0 else OuterCalls(ops)) && |r.segments| == 2 * r.breaks + 1
  }

  lemma EndedRecords(full: bool, r: Recording, ops: seq<Op>)
    requires Alternates(r) && Extends(full, Begun(), r, ops)
    ensures Records(full, Ended(r), ops)
  {
    FlattenAppend(r.segments, Graph(r.open.value));
    BreakAlternates(r, []);
    hide Alternates, Flatten, OuterCalls;
    assert Recorded(Begun()) == [];
    assert Complete(Ended(r)) by { EndedIsComplete(r); }
  }

  lemma EndedIsComplete(r: Recording)
    requires Alternates(r) && r.open.Some? && Alternates(Ended(r))
    ensures Complete(Ended(r)) && r.graphs == r.breaks && |r.segments| == 2 * r.breaks
  {
  }

  /** The recording of a program that does not raise stands for its kernels; there is one break for every
      decorated op the program calls, and one graph more; in FULL mode there is one graph only. */
  lemma CaptureIsProgram(dev: Device, full: bool, ops: seq<Op>, m: Memory)
    ensures var (ok, after) := CaptureProgram(dev, full, ops, m);
            && ok == !Raises(ops)
            && (ok ==> after.capture.Some? && Records(full, after.capture.value, ops))
  {
    hide *;
    var start := Machine(m, Some(Begun()));
    BegunCaptures(m);
    CaptureProgramEnds(dev, full, ops, m);
    CaptureRun(dev, full, ops, start);
    var (ok, after) := Run(dev, full, ops, start);
    if ok {
      EndedRecords(full, after.capture.value, ops);
    }
  }

  lemma BegunCaptures(m: Memory)
    ensures Machine(m, Some(Begun())).Capturing() && Alternates(Begun())
  {
  }

  lemma CaptureProgramEnds(dev: Device, full: bool, ops: seq<Op>, m: Memory)
    ensures
      var (ok, after) := Run(dev, full, ops, Machine(m, Some(Begun())));
      CaptureProgram(dev, full, ops, m) ==
      (ok, if after.capture.None? then after else after.(capture := Some(Ended(after.capture.value))))
  {
    hide Run, Begun, Ended;
  }

  /** The segments in order, up to the first function that raises; false if there is one. */
  function Replay(dev: Device, full: bool, segments: seq<Segment>, m: Memory): (bool, Memory) {
    if segments == [] then (true, m)
    else
      var (ok, before) := Replay(dev, full, segments[..|segments| - 1], m);
      if !ok then (false, before)
      else
        match segments[|segments| - 1]
        case Graph(kernels) => (true, RunKernels(dev, kernels, before))
        case Eager(body) =>
          var (ran, after) := Run(dev, full, body, Machine(before, None));
          (ran, after.memory)
  }

  lemma {:induction false} ReplayStops(dev: Device, full: bool, segments: seq<Segment>, i: nat, m: Memory)
    requires i <= |segments| && !Replay(dev, full, segments[..i], m).0
    ensures Replay(dev, full, segments, m) == Replay(dev, full, segments[..i], m)
    decreases |segments|
  {
    if i == |segments| {
      assert segments[..i] == segments;
    } else {
      assert segments[..|segments| - 1][..i] == segments[..i];
      ReplayStops(dev, full, segments[..|segments| - 1], i, m);
    }
  }

  /** Replaying a complete recording of functions that do not raise runs the kernels it stands for. */
  lemma {:induction false} ReplayIsRun(dev: Device, full: bool, segments: seq<Segment>, m: Memory)
    requires forall i | 0 <= i < |segments| && segments[i].Eager? :: !Raises(segments[i].body)
    ensures Replay(dev, full, segments, m) == (true, RunKernels(dev, FlattenSegments(segments), m))
    decreases |segments|
  {
    if segments != [] {
      var rest, last := segments[..|segments| - 1], segments[|segments| - 1];
      ReplayIsRun(dev, full, rest, m);
      RunsExactly(dev, FlattenSegments(rest), SegmentKernels(last), m);
      if last.Eager? {
        EagerRun(dev, full, last.body, Machine(Replay(dev, full, rest, m).1, None));
      }
    }
  }

  /** Replay refines direct execution: whatever memory holds, replaying the capture of a program does to
      it what running the program would do. */
  lemma ReplayIsProgram(dev: Device, full: bool, replayFull: bool, ops: seq<Op>, captureMemory: Memory, m: Memory)
    requires !Raises(ops)
    ensures var (_, after) := CaptureProgram(dev, full, ops, captureMemory);
            && after.capture.Some?
            && Replay(dev, replayFull, after.capture.value.segments, m) ==
               (true, Run(dev, replayFull, ops, Machine(m, None)).1.memory)
  {
    CaptureIsProgram(dev, full, ops, captureMemory);
    ReplayIsRun(dev, replayFull, CaptureProgram(dev, full, ops, captureMemory).1.capture.value.segments, m);
    EagerRun(dev, replayFull, ops, Machine(m, None));
  }

  // ---------------------------------------------------------------------------------------
  // The wrapper
  // ---------------------------------------------------------------------------------------

  datatype Context = Context(mode: Mode, descriptor: Option<nat>)

  /** One call: the forward context, what the runnable does this time, where the inputs are, whether
      capturing is allowed, and whether a capture is preceded by an eager run. */
  datatype Request = Request(context: Option<Context>, ops: seq<Op>, addresses: seq<int>, enabled: bool, prewarm: bool)
  {
    function Mode(): Option<Mode> { if context.None? then None else Some(context.value.mode) }
    predicate Full() { context.Some? && context.value.mode == FULL }
    predicate Bypasses() { context.None? || context.value.mode == NONE }
  }

  datatype Outcome = Ran | Captured | Replayed | Failed

  datatype Saved = Saved(recording: Option<Recording>, addresses: Option<seq<int>>)

  type Cache = map<nat, Saved>

  /** The call replays a stored capture. */
  predicate Replays(debugging: bool, q: Request, c: Cache) {
    && !q.Bypasses() && q.context.value.descriptor.Some?
    && var d := q.context.value.descriptor.value;
       && d in c && c[d].recording.Some?
       && (debugging && c[d].addresses.Some? ==> c[d].addresses.value == q.addresses)
  }

  /** What a call does to the cache of captures and to the thread, which may have a capture in progress: then a new
      capture fails when it is entered. What a replay into an open graph does is up to the graph library. */
  function CallSpec(dev: Device, debugging: bool, q: Request, c: Cache, m: Machine): (Outcome, Cache, Machine)
    requires m.Capturing() ==> !Replays(debugging, q, c)
  {
    if q.Bypasses() then
      var (ok, after) := Run(dev, q.Full(), q.ops, m);
      (if ok then Ran else Failed, c, after)
    else if q.context.value.descriptor.None? then (Failed, c, m)
    else
      var d := q.context.value.descriptor.value;
      var known := if d in c then c else c[d := Saved(None, None)];
      var entry := known[d];
      if entry.recording.None? then
        if !q.enabled then (Failed, known, m)
        else
          var addressed := known[d := Saved(None, Some(q.addresses))];
          var (warm, warmed) := if q.prewarm then Run(dev, q.Full(), q.ops, m) else (true, m);
          if !warm || warmed.capture.Some? then (Failed, addressed, warmed) else
            var (ok, after) := CaptureProgram(dev, q.Full(), q.ops, warmed.memory);
            if ok then (Captured, addressed[d := Saved(after.capture, Some(q.addresses))], Machine(after.memory, None))
            else (Failed, addressed, Machine(after.memory, None))
      else if debugging && entry.addresses.Some? && entry.addresses.value != q.addresses then (Failed, known, m)
      else
        var (ok, replayed) := Replay(dev, q.Full(), entry.recording.value.segments, m.memory);
        (if ok then Replayed else Failed, known, m.(memory := replayed))
  }

  /** A call that bypasses capture runs the program: in memory, or into the graph that is being captured. */
  ghost predicate Bypassed(
    dev: Device, q: Request, c: Cache, m: Machine, outcome: Outcome, after: Cache, then_: Machine)
  {
    && after == c && outcome == (if Raises(q.ops) then Failed else Ran)
    && (!m.Capturing() ==> then_ == m.(memory := RunKernels(dev, Executed(q.ops), m.memory)))
    && (m.Capturing() && Alternates(m.capture.value) && !Raises(q.ops) ==>
          then_.capture.Some? && Recorded(then_.capture.value) == Recorded(m.capture.value) + Flatten(q.ops))
    && (m.Capturing() ==> then_.memory == RunKernels(dev, BreakKernels(q.ops), m.memory))
  }

  /** A call that bypasses runs the program and keeps the cache. Within a capture its kernels are recorded, and only
      those of its breaks run. */
  lemma BypassSays(dev: Device, debugging: bool, q: Request, c: Cache, m: Machine)
    requires q.Bypasses()
    ensures var (outcome, after, then_) := CallSpec(dev, debugging, q, c, m);
            Bypassed(dev, q, c, m, outcome, after, then_)
  {
    if m.Capturing() {
      CaptureMemory(dev, q.Full(), q.ops, m);
      if Alternates(m.capture.value) { CaptureRun(dev, q.Full(), q.ops, m); }
    } else {
      EagerRun(dev, q.Full(), q.ops, m);
    }
    hide Run, Raises, Executed, BreakKernels, Flatten, Alternates, Recorded;
  }

  /** The entries of all other descriptors stay. */
  ghost predicate OthersKept(c: Cache, after: Cache, d: nat) {
    && (forall e | e in c && e != d :: e in after && after[e] == c[e])
    && (forall e | e in after && e != d :: e in c)
  }

  /** A call for a descriptor with a complete capture replays it, unless the inputs moved and that is checked. */
  lemma ReplaySays(dev: Device, debugging: bool, q: Request, c: Cache, m: Machine, d: nat)
    requires !q.Bypasses() && q.context.value.descriptor == Some(d) && !m.Capturing()
    requires d in c && c[d].recording.Some? && Complete(c[d].recording.value)
    ensures var (outcome, after, then_) := CallSpec(dev, debugging, q, c, m);
            var moved := debugging && c[d].addresses.Some? && c[d].addresses.value != q.addresses;
            && after == c && outcome == (if moved then Failed else Replayed)
            && then_ == if moved then m
                        else m.(memory := RunKernels(dev, FlattenSegments(c[d].recording.value.segments), m.memory))
  {
    ReplayIsRun(dev, q.Full(), c[d].recording.value.segments, m.memory);
  }

  /** A call that is to capture, unfolded: no capture is in progress. */
  lemma FreshCapture(dev: Device, debugging: bool, q: Request, c: Cache, m: Machine, d: nat)
    requires !q.Bypasses() && q.context.value.descriptor == Some(d) && q.enabled && m.capture.None?
    requires d in c ==> c[d].recording.None?
    ensures
      var addressed := c[d := Saved(None, Some(q.addresses))];
      var warmed := if q.prewarm then RunKernels(dev, Executed(q.ops), m.memory) else m.memory;
      CallSpec(dev, debugging, q, c, m) ==
      if q.prewarm && Raises(q.ops) then (Failed, addressed, Machine(warmed, None)) else
        var (ok, after) := CaptureProgram(dev, q.Full(), q.ops, warmed);
        if ok then (Captured, addressed[d := Saved(after.capture, Some(q.addresses))], Machine(after.memory, None))
        else (Failed, addressed, Machine(after.memory, None))
  {
    EagerRun(dev, q.Full(), q.ops, m);
    assert !m.Capturing();
    hide Run, CaptureProgram, Raises, Executed, RunKernels;
    var known := if d in c then c else c[d := Saved(None, None)];
    assert known[d := Saved(None, Some(q.addresses))] == c[d := Saved(None, Some(q.addresses))];
  }

  /** The same within a capture, where the new one fails after the eager run. */
  lemma NestedCapture(dev: Device, debugging: bool, q: Request, c: Cache, m: Machine, d: nat)
    requires !q.Bypasses() && q.context.value.descriptor == Some(d) && q.enabled && m.capture.Some?
    requires d in c ==> c[d].recording.None?
    ensures
      var (outcome, after, then_) := CallSpec(dev, debugging, q, c, m);
      && outcome == Failed && after == c[d := Saved(None, Some(q.addresses))]
      && (!q.prewarm ==> then_ == m)
      && (q.prewarm && !m.Capturing() ==> then_ == m.(memory := RunKernels(dev, Executed(q.ops), m.memory)))
  {
    if m.Capturing() {
      CaptureMemory(dev, q.Full(), q.ops, m);
    } else {
      EagerRun(dev, q.Full(), q.ops, m);
    }
    hide Run, CaptureProgram, Raises, Executed, BreakKernels, RunKernels;
    var known := if d in c then c else c[d := Saved(None, None)];
    assert known[d := Saved(None, Some(q.addresses))] == c[d := Saved(None, Some(q.addresses))];
  }

  /** The same when capturing is disabled. */
  lemma NoCapture(dev: Device, debugging: bool, q: Request, c: Cache, m: Machine, d: nat)
    requires !q.Bypasses() && q.context.value.descriptor == Some(d) && !q.enabled
    requires d in c ==> c[d].recording.None?
    ensures CallSpec(dev, debugging, q, c, m) == (Failed, if d in c then c else c[d := Saved(None, None)], m)
  {
    hide Run, CaptureProgram, Replay;
  }

  /** A call for a descriptor without a capture makes one exactly when capturing is enabled, no capture is in progress
      and the program does not raise; the eager run comes first. Otherwise it fails and leaves an entry without one. */
  lemma CaptureSays(dev: Device, debugging: bool, q: Request, c: Cache, m: Machine, d: nat)
    requires !q.Bypasses() && q.context.value.descriptor == Some(d)
    requires d in c ==> c[d].recording.None?
    ensures var (outcome, after, then_) := CallSpec(dev, debugging, q, c, m);
            && OthersKept(c, after, d) && d in after
            && outcome == (if q.enabled && m.capture.None? && !Raises(q.ops) then Captured else Failed)
            && (outcome == Captured ==>
                  && after[d].recording.Some? && Records(q.context.value.mode == FULL, after[d].recording.value, q.ops)
                  && after[d].addresses == Some(q.addresses))
            && (outcome == Failed ==> after[d].recording.None?)
            && (q.enabled ==> after[d].addresses == Some(q.addresses))
            && (!q.enabled ==> then_ == m && after[d].addresses == if d in c then c[d].addresses else None)
            && (m.capture.None? ==> then_.capture.None?)
            && (!q.prewarm && m.capture.Some? ==> then_ == m)
            && (q.enabled && q.prewarm && m.capture.Some? && !m.Capturing() ==>
                  then_ == m.(memory := RunKernels(dev, Executed(q.ops), m.memory)))
  {
    hide CallSpec, Run, CaptureProgram, Raises, Executed, Records, RunKernels;
    if !q.enabled {
      NoCapture(dev, debugging, q, c, m, d);
    } else if m.capture.None? {
      FreshCapture(dev, debugging, q, c, m, d);
      var warmed := if q.prewarm then RunKernels(dev, Executed(q.ops), m.memory) else m.memory;
      CaptureIsProgram(dev, q.Full(), q.ops, warmed);
    } else {
      NestedCapture(dev, debugging, q, c, m, d);
    }
  }

  /** What has run then: with the eager run all kernels up to where the program raises, and in the capture those of
      its breaks, none in FULL mode. */
  lemma CaptureRuns(dev: Device, debugging: bool, q: Request, c: Cache, m: Machine, d: nat)
    requires !q.Bypasses() && q.context.value.descriptor == Some(d) && q.enabled && m.capture.None?
    requires d in c ==> c[d].recording.None?
    ensures
      var warmed := if q.prewarm then RunKernels(dev, Executed(q.ops), m.memory) else m.memory;
      CallSpec(dev, debugging, q, c, m).2.memory ==
      if q.context.value.mode == FULL || (q.prewarm && Raises(q.ops)) then warmed
      else RunKernels(dev, BreakKernels(q.ops), warmed)
  {
    FreshCapture(dev, debugging, q, c, m, d);
    var warmed := if q.prewarm then RunKernels(dev, Executed(q.ops), m.memory) else m.memory;
    ProgramRuns(dev, q.Full(), q.ops, warmed);
    hide CallSpec, CaptureProgram, Raises, Executed, BreakKernels, RunKernels;
  }

  lemma ProgramRuns(dev: Device, full: bool, ops: seq<Op>, m: Memory)
    ensures CaptureProgram(dev, full, ops, m).1.memory ==
            if full then m else RunKernels(dev, BreakKernels(ops), m)
  {
    hide *;
    BegunCaptures(m);
    CaptureMemory(dev, full, ops, Machine(m, Some(Begun())));
    CaptureProgramEnds(dev, full, ops, m);
  }

  /** Without a descriptor a call that does not bypass fails and does nothing. */
  lemma UndescribedFails(dev: Device, debugging: bool, q: Request, c: Cache, m: Machine)
    requires !q.Bypasses() && q.context.value.descriptor.None?
    ensures CallSpec(dev, debugging, q, c, m) == (Failed, c, m)
  {
  }

  /** Two kernels around a break. */
  const AROUND := [Op.Launch(1), Call([Op.Launch(2)]), Op.Launch(3)]

  /** They run in order. */
  lemma AroundRuns(dev: Device, full: bool, m: Memory)
    ensures Run(dev, full, AROUND, Machine(m, None)) ==
            (true, Machine(dev.effect(3, dev.effect(2, dev.effect(1, m))), None))
  {
    RunOfThree(dev, full, AROUND, Machine(m, None));
    RunOfOne(dev, full, Op.Launch(2), Machine(dev.effect(1, m), None));
    hide Run;
  }

  /** Captured, the break runs and cuts the graph in two. */
  lemma AroundBreaks(dev: Device, m: Memory)
    ensures CaptureProgram(dev, false, AROUND, m) ==
            (true, Machine(dev.effect(2, m),
                           Some(Recording([Graph([1]), Eager([Op.Launch(2)]), Graph([3])], 2, 1, None))))
  {
    RunOfThree(dev, false, AROUND, Machine(m, Some(Begun())));
    RunOfOne(dev, false, Op.Launch(2), Machine(m, Some(Recording([Graph([1])], 1, 0, None))));
    hide Run;
    assert [] + [1] == [1] && [] + [3] == [3] && [] + [Graph([1])] == [Graph([1])];
    assert [Graph([1])] + [Eager([Op.Launch(2)])] + [Graph([3])] == [Graph([1]), Eager([Op.Launch(2)]), Graph([3])];
  }

  /** In FULL mode it does not. */
  lemma AroundInFull(dev: Device, m: Memory)
    ensures CaptureProgram(dev, true, AROUND, m) ==
            (true, Machine(m, Some(Recording([Graph([1, 2, 3])], 1, 0, None))))
  {
    var one := Machine(m, Some(Recording([], 0, 0, Some([1]))));
    var two := Machine(m, Some(Recording([], 0, 0, Some([1, 2]))));
    RunOfThree(dev, true, AROUND, Machine(m, Some(Begun())));
    RunOfOne(dev, true, Op.Launch(2), one);
    assert [] + [1] == [1] && [1] + [2] == [1, 2] && [1, 2] + [3] == [1, 2, 3];
    assert RunOne(dev, true, AROUND[0], Machine(m, Some(Begun()))) == (true, one);
    assert RunOne(dev, true, AROUND[1], one) == (true, two);
    hide Run;
    assert [] + [Graph([1, 2, 3])] == [Graph([1, 2, 3])];
  }

  function RunThree(dev: Device, full: bool, ops: seq<Op>, m: Machine): (bool, Machine)
    requires |ops| == 3
  {
    var (one, a) := RunOne(dev, full, ops[0], m);
    if !one then (false, a) else
      var (two, b) := RunOne(dev, full, ops[1], a);
      if !two then (false, b) else RunOne(dev, full, ops[2], b)
  }

  lemma RunOfOne(dev: Device, full: bool, op: Op, m: Machine)
    ensures Run(dev, full, [op], m) == RunOne(dev, full, op, m)
  {
    assert [op][1..] == [];
  }

  lemma RunOfThree(dev: Device, full: bool, ops: seq<Op>, m: Machine)
    requires |ops| == 3
    ensures Run(dev, full, ops, m) == RunThree(dev, full, ops, m)
  {
    assert ops == [ops[0]] + ops[1..] && ops[1..][0] == ops[1] && ops[1..][1..] == [ops[2]];
    var (one, a) := RunOne(dev, full, ops[0], m);
    if one {
      var (two, b) := RunOne(dev, full, ops[1], a);
      if two { RunOfOne(dev, full, ops[2], b); }
    }
  }

  datatype Entry = Entry(capture: BreakableCapture?, addresses: Option<seq<int>>)

  class BreakableWrapper {
    const debugging: bool
    var entries: map<nat, Entry>

    ghost function Captures(): set<object> reads this {
      set d | d in entries && entries[d].capture != null :: entries[d].capture
    }

    ghost predicate Valid() reads this, Captures() {
      forall d | d in entries && entries[d].capture != null :: entries[d].capture.Valid()
    }

    ghost function View(): Cache reads this, Captures() {
      map d | d in entries ::
        Saved(if entries[d].capture == null then None else Some(entries[d].capture.View()), entries[d].addresses)
    }

    constructor (debugging: bool)
      ensures Valid() && View() == map[] && Captures() == {}
    {
      this.debugging, entries := debugging, map[];
    }

    method ClearGraphs()
      modifies this
      ensures Valid() && View() == map[]
    {
      entries := map[];
    }

    method Call(t: Thread, q: Request) returns (outcome: Outcome)
      requires Valid() && t.Valid() && t.mode == q.Mode() && t.active !in Captures()
      requires t.View().Capturing() ==> !Replays(debugging, q, View())
      modifies this, t, if t.active == null then {} else {t.active}
      ensures Valid() && t.Valid() && t.active == old(t.active) && t.mode == old(t.mode) && t.active !in Captures()
      ensures (outcome, View(), t.View()) == CallSpec(t.dev, debugging, q, old(View()), old(t.View()))
    {
      hide CaptureProgram, Run, Replay;
      if q.context.None? || q.context.value.mode == NONE {
        var ok := t.RunOps(q.ops);
        outcome := if ok then Ran else Failed;
        assert View() == old(View());
        return;
      }
      if q.context.value.descriptor.None? { return Failed; }
      var d := q.context.value.descriptor.value;
      ghost var c := View();
      if d !in entries {
        entries := entries[d := Entry(null, None)];
        assert View() == c[d := Saved(None, None)];
      }
      assert CallSpec(t.dev, debugging, q, View(), t.View()) == CallSpec(t.dev, debugging, q, c, t.View());
      if entries[d].capture == null {
        outcome := Capture(t, q, d);
      } else {
        c := View();
        if debugging && entries[d].addresses.Some? && entries[d].addresses.value != q.addresses {
          return Failed;
        }
        var ok := t.ReplayCapture(entries[d].capture);
        assert View() == c;
        outcome := if ok then Replayed else Failed;
      }
    }

    method Capture(t: Thread, q: Request, d: nat) returns (outcome: Outcome)
      requires Valid() && t.Valid() && t.mode == q.Mode() && t.active !in Captures()
      requires d in entries && entries[d].capture == null
      requires !q.Bypasses() && q.context.value.descriptor == Some(d)
      modifies this, t, if t.active == null then {} else {t.active}
      ensures Valid() && t.Valid() && t.active == old(t.active) && t.mode == old(t.mode) && t.active !in Captures()
      ensures !Replays(debugging, q, old(View()))
      ensures (outcome, View(), t.View()) == CallSpec(t.dev, debugging, q, old(View()), old(t.View()))
    {
      hide CaptureProgram, Run, Replay;
      assert View()[d].recording.None?;
      if !q.enabled { return Failed; }
      entries := entries[d := Entry(null, Some(q.addresses))];
      ghost var addressed := View();
      assert addressed == old(View())[d := Saved(None, Some(q.addresses))];
      if q.prewarm {
        var ok := t.RunOps(q.ops);
        assert View() == addressed;
        if !ok { return Failed; }
      }
      outcome := Record(t, q, d);
    }

    /** Entering the new capture fails when the thread has one in progress. */
    method Record(t: Thread, q: Request, d: nat) returns (outcome: Outcome)
      requires Valid() && t.Valid() && t.mode == q.Mode() && d in entries && t.active !in Captures()
      modifies this, t
      ensures Valid() && t.Valid() && t.active == old(t.active) && t.mode == old(t.mode) && t.active !in Captures()
      ensures t.active != null ==> outcome == Failed && View() == old(View()) && t.View() == old(t.View())
      ensures t.active == null ==>
                var (ok, after) := CaptureProgram(t.dev, q.Full(), q.ops, old(t.memory));
                && t.memory == after.memory && outcome == (if ok then Captured else Failed)
                && View() == if ok then old(View())[d := Saved(after.capture, Some(q.addresses))] else old(View())
    {
      hide CaptureProgram, Run;
      ghost var before := View();
      var ok, capture := t.CaptureOps(q.ops);
      assert View() == before;
      if !ok { return Failed; }
      entries := entries[d := Entry(capture, Some(q.addresses))];
      assert View() == before[d := Saved(Some(capture.View()), Some(q.addresses))];
      outcome := Captured;
    }
  }

  // ---------------------------------------------------------------------------------------
  // Runs of the wrapper
  // ---------------------------------------------------------------------------------------

  datatype Event = Invoke(request: Request) | Clear

  datatype World = World(cache: Cache, memory: Memory)

  function StepWorld(dev: Device, debugging: bool, e: Event, w: World): (Option<Outcome>, World) {
    match e
    case Clear => (None, World(map[], w.memory))
    case Invoke(q) =>
      var (outcome, c, m) := CallSpec(dev, debugging, q, w.cache, Machine(w.memory, None));
      (Some(outcome), World(c, m.memory))
  }

  /** The state after the first n events, from an empty cache. */
  function After(dev: Device, debugging: bool, events: seq<Event>, m: Memory, n: nat): World
    requires n <= |events|
  {
    if n == 0 then World(map[], m)
    else StepWorld(dev, debugging, events[n - 1], After(dev, debugging, events, m, n - 1)).1
  }

  /** A run starts with an empty cache; a call changes cache and memory as `Call` does, and a clear empties the
      cache. */
  lemma RunSays(dev: Device, debugging: bool, events: seq<Event>, m: Memory, n: nat)
    requires n < |events|
    ensures After(dev, debugging, events, m, 0) == World(map[], m)
    ensures
      var before, after := After(dev, debugging, events, m, n), After(dev, debugging, events, m, n + 1);
      match events[n]
      case Clear => after == World(map[], before.memory)
      case Invoke(q) =>
        var (_, c, then_) := CallSpec(dev, debugging, q, before.cache, Machine(before.memory, None));
        after == World(c, then_.memory)
  {
    hide CallSpec;
  }

  predicate Addresses(e: Event, d: nat) {
    e.Invoke? && !e.request.Bypasses() && e.request.context.value.descriptor == Some(d)
  }

  /** A descriptor determines the program: a call that does not fail runs the program of its descriptor. */
  ghost predicate Follows(events: seq<Event>, program: nat -> seq<Op>) {
    forall i, d | 0 <= i < |events| && Addresses(events[i], d) && !Raises(events[i].request.ops) ::
      events[i].request.ops == program(d)
  }

  /** Every stored capture is closed and stands for the program of its descriptor. */
  ghost predicate Faithful(c: Cache, program: nat -> seq<Op>) {
    forall d | d in c && c[d].recording.Some? :: Stands(c[d].recording.value, program(d))
  }

  ghost predicate Stands(r: Recording, ops: seq<Op>) {
    Complete(r) && !Raises(ops) && FlattenSegments(r.segments) == Flatten(ops)
  }

  /** A call that has nothing to capture keeps the cache. */
  lemma CacheStays(dev: Device, debugging: bool, q: Request, c: Cache, m: Machine)
    requires m.Capturing() ==> !Replays(debugging, q, c)
    requires
      || q.Bypasses()
      || q.context.value.descriptor.None?
      || (var d := q.context.value.descriptor.value; d in c && c[d].recording.Some?)
    ensures CallSpec(dev, debugging, q, c, m).1 == c
  {
    hide Run, CaptureProgram, Replay;
  }

  lemma CallKeepsFaithful(dev: Device, debugging: bool, q: Request, c: Cache, m: Machine, program: nat -> seq<Op>)
    requires Faithful(c, program) && (m.Capturing() ==> !Replays(debugging, q, c))
    requires !q.Bypasses() && q.context.value.descriptor.Some? && !Raises(q.ops) ==>
               q.ops == program(q.context.value.descriptor.value)
    ensures Faithful(CallSpec(dev, debugging, q, c, m).1, program)
  {
    hide CallSpec, Complete, FlattenSegments, Flatten, Raises, OuterCalls, Run, Executed, RunKernels;
    if q.Bypasses() || q.context.value.descriptor.None? {
      CacheStays(dev, debugging, q, c, m);
    } else {
      var d := q.context.value.descriptor.value;
      if d in c && c[d].recording.Some? {
        CacheStays(dev, debugging, q, c, m);
      } else {
        CaptureSays(dev, debugging, q, c, m, d);
      }
    }
  }

  /** After any run of calls, failed captures and clears, every stored capture is complete and stands
      for its descriptor's program. */
  lemma {:induction false} CachesStayFaithful(dev: Device, debugging: bool, events: seq<Event>, m: Memory, n: nat,
                                              program: nat -> seq<Op>)
    requires n <= |events| && Follows(events, program)
    ensures Faithful(After(dev, debugging, events, m, n).cache, program)
  {
    if n > 0 {
      CachesStayFaithful(dev, debugging, events, m, n - 1, program);
      if events[n - 1].Invoke? {
        var q, w := events[n - 1].request, After(dev, debugging, events, m, n - 1);
        if !q.Bypasses() && q.context.value.descriptor.Some? {
          assert Addresses(events[n - 1], q.context.value.descriptor.value);
        }
        CallKeepsFaithful(dev, debugging, q, w.cache, Machine(w.memory, None), program);
      }
    }
  }

  /** Every call that replays does to memory what running its descriptor's program would do. */
  lemma ReplayingIsRunning(dev: Device, debugging: bool, events: seq<Event>, m: Memory, n: nat, d: nat,
                           program: nat -> seq<Op>)
    requires n < |events| && Follows(events, program) && Addresses(events[n], d)
    requires StepWorld(dev, debugging, events[n], After(dev, debugging, events, m, n)).0 == Some(Replayed)
    ensures var before, after := After(dev, debugging, events, m, n), After(dev, debugging, events, m, n + 1);
            after.memory == Run(dev, events[n].request.Full(), program(d), Machine(before.memory, None)).1.memory
  {
    CachesStayFaithful(dev, debugging, events, m, n, program);
    var q, w := events[n].request, After(dev, debugging, events, m, n);
    hide Run, CaptureProgram, Replay;
    assert d in w.cache && w.cache[d].recording.Some?;
    var r := w.cache[d].recording.value;
    ReplayIsRun(dev, q.Full(), r.segments, w.memory);
    EagerRun(dev, q.Full(), program(d), Machine(w.memory, None));
  }

  predicate Holds(c: Cache, d: nat) { d in c && c[d].recording.Some? }

  lemma CallKeepsCaptures(dev: Device, debugging: bool, q: Request, c: Cache, m: Machine, d: nat)
    requires m.Capturing() ==> !Replays(debugging, q, c)
    ensures Holds(c, d) ==> Holds(CallSpec(dev, debugging, q, c, m).1, d)
    ensures CallSpec(dev, debugging, q, c, m).0 == Captured && Addresses(Invoke(q), d) ==>
              !Holds(c, d) && Holds(CallSpec(dev, debugging, q, c, m).1, d)
  {
    var warmed := if q.prewarm then Run(dev, q.Full(), q.ops, m).1 else m;
    CaptureIsProgram(dev, q.Full(), q.ops, warmed.memory);
    hide Run, CaptureProgram, Replay, Raises;
  }

  lemma {:induction false} CapturesPersist(
    dev: Device, debugging: bool, events: seq<Event>, m: Memory, i: nat, j: nat, d: nat)
    requires i <= j <= |events| && Holds(After(dev, debugging, events, m, i).cache, d)
    requires forall k | i <= k < j :: events[k].Invoke?
    ensures Holds(After(dev, debugging, events, m, j).cache, d)
    decreases j - i
  {
    if i < j {
      CapturesPersist(dev, debugging, events, m, i, j - 1, d);
      var w := After(dev, debugging, events, m, j - 1);
      CallKeepsCaptures(dev, debugging, events[j - 1].request, w.cache, Machine(w.memory, None), d);
    }
  }

  /** A descriptor is captured at most once between clears. */
  lemma CapturedOncePerClear(dev: Device, debugging: bool, events: seq<Event>, m: Memory, i: nat, j: nat, d: nat)
    requires i < j < |events| && Addresses(events[i], d) && Addresses(events[j], d)
    requires StepWorld(dev, debugging, events[i], After(dev, debugging, events, m, i)).0 == Some(Captured)
    requires StepWorld(dev, debugging, events[j], After(dev, debugging, events, m, j)).0 == Some(Captured)
    ensures exists k :: i < k < j && events[k].Clear?
  {
    var p, q := events[i].request, events[j].request;
    var w, v := After(dev, debugging, events, m, i), After(dev, debugging, events, m, j);
    CallKeepsCaptures(dev, debugging, p, w.cache, Machine(w.memory, None), d);
    CallKeepsCaptures(dev, debugging, q, v.cache, Machine(v.memory, None), d);
    if forall k | i < k < j :: events[k].Invoke? {
      CapturesPersist(dev, debugging, events, m, i + 1, j, d);
    }
  }
}
