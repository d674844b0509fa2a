/** Program instances of the selective-scan kernel running side by side (overlay/vllm/_xpu_ops.py).

    Every instance is a thread over one shared memory; any scheduler may interleave their steps. The
    threads of a launch turn out to be independent, so every interleaving computes what each sequence
    computes alone. */
module SelectiveScanGrid {
  import opened Scaling
  import opened Wrappers
  import opened SelectiveScan

  datatype Memory = Memory(delta: seq<Val>, z: seq<Val>, states: seq<Vec>)

  /** Where an instance is: not started, or about to process token `local` of chunk `chunk`. */
  datatype Thread = Idle | Running(state: Vec, chunk: nat, local: nat)

  predicate Done(p: Plan, t: Thread) { t.Running? && t.chunk >= |p.chunks| }

  /** One step: load the initial state, process a token in place, or store a checkpoint. */
  function Step(ar: Arithmetic, ops: Operands, p: Plan, t: Thread, m: Memory): (r: (Thread, Memory))
    requires p.Fits(ops, |m.delta|, |m.z|, |m.states|) && InStep(p, t)
    ensures InStep(p, r.0)
    ensures |r.1.delta| == |m.delta| && |r.1.z| == |m.z| && |r.1.states| == |m.states|
  {
    match t
    case Idle => (Running(p.Start(ar, m.states), 0, 0), m)
    case Running(state, chunk, local) =>
      if chunk >= |p.chunks| then (t, m)
      else if local < p.chunks[chunk] then
        TokensMonotone(p.chunks, chunk + 1, |p.chunks|);
        var n := Tokens(p.chunks, chunk) + local;
        var next := ar.step(p.d, ops.u[p.at.u + n], m.delta[p.at.delta + n], ops.b[p.at.b + n], state);
        var out := ar.emit(p.d, ops.u[p.at.u + n], ops.c[p.at.c + n], next);
        (Running(next, chunk, local + 1),
         m.(delta := m.delta[p.at.delta + n := out],
            z := if p.hasZ then m.z[p.at.z + n := ar.gate(out, m.z[p.at.z + n])] else m.z))
      else
        (Running(state, chunk + 1, 0), m.(states := m.states[p.cells[chunk] := state]))
  }

  predicate InStep(p: Plan, t: Thread) {
    t.Running? ==> t.chunk <= |p.chunks| && t.local <= if t.chunk < |p.chunks| then p.chunks[t.chunk] else 0
  }

  datatype World = World(mem: Memory, threads: seq<Thread>)

  ghost predicate Legal(ops: Operands, plans: seq<Plan>, w: World) {
    && |w.threads| == |plans|
    && forall i | 0 <= i < |plans| ::
         plans[i].Fits(ops, |w.mem.delta|, |w.mem.z|, |w.mem.states|) && InStep(plans[i], w.threads[i])
  }

  function StepWorld(ar: Arithmetic, ops: Operands, plans: seq<Plan>, i: nat, w: World): (r: World)
    requires Legal(ops, plans, w) && i < |plans|
    ensures Legal(ops, plans, r)
  {
    var (t, m) := Step(ar, ops, plans[i], w.threads[i], w.mem);
    World(m, w.threads[i := t])
  }

  /** The scheduler picks a thread at every step. */
  function Run(ar: Arithmetic, ops: Operands, plans: seq<Plan>, schedule: seq<nat>, w: World): (r: World)
    requires Legal(ops, plans, w) && forall k | 0 <= k < |schedule| :: schedule[k] < |plans|
    ensures Legal(ops, plans, r)
  {
    if schedule == [] then w else
      var before := Run(ar, ops, plans, schedule[..|schedule| - 1], w);
      StepWorld(ar, ops, plans, schedule[|schedule| - 1], before)
  }

  function Begin(plans: seq<Plan>, m: Memory): World { World(m, seq(|plans|, i => Idle)) }

  // ---------------------------------------------------------------------------------------
  // Independence
  // ---------------------------------------------------------------------------------------

  ghost predicate Apart(p: Plan, q: Plan) {
    && (p.at.delta + p.Count() <= q.at.delta || q.at.delta + q.Count() <= p.at.delta
        || p.Count() == 0 || q.Count() == 0)
    && (p.hasZ && q.hasZ ==>
          p.at.z + p.Count() <= q.at.z || q.at.z + q.Count() <= p.at.z || p.Count() == 0 || q.Count() == 0)
    && (forall c | c in p.cells :: c !in q.cells && q.load != Some(c))
  }

  /** No instance writes what another reads or writes. */
  ghost predicate Independent(plans: seq<Plan>) {
    forall i, j | 0 <= i < |plans| && 0 <= j < |plans| && i != j :: Apart(plans[i], plans[j])
  }

  /** The tokens the thread has processed. */
  function Processed(p: Plan, t: Thread): nat
    requires InStep(p, t)
  {
    if t.Idle? then 0 else Tokens(p.chunks, t.chunk) + t.local
  }

  function Saves(p: Plan, t: Thread): nat { if t.Idle? then 0 else t.chunk }

  /** Of the cells from `base`, the first n hold outputs and the others what they held. */
  ghost predicate Region(now: seq<Val>, was: seq<Val>, base: nat, outs: seq<Val>, n: nat) {
    && n <= |outs| && base + |outs| <= |now| == |was|
    && forall a | base <= a < base + |outs| :: now[a] == if a < base + n then outs[a - base] else was[a]
  }

  /** The thread and its part of memory are where the scan alone would have them. */
  ghost predicate OnTrack(ar: Arithmetic, ops: Operands, p: Plan, t: Thread, m: Memory, was: Memory)
    requires p.Fits(ops, |was.delta|, |was.z|, |was.states|)
  {
    && p.Fits(ops, |m.delta|, |m.z|, |m.states|) && InStep(p, t)
    && |m.delta| == |was.delta| && |m.z| == |was.z| && |m.states| == |was.states|
    && var toks := p.Lane(ops, was.delta, was.z, |was.states|);
       var start := p.Start(ar, was.states);
       var n := Processed(p, t);
       && n <= |toks|
       && (t.Running? ==> t.state == StateAfter(ar, p.d, start, toks, n))
       && Holding(ar, p, start, toks, m, was, n, Saves(p, t))
  }

  /** The part of memory p uses, after n tokens and k checkpoints. */
  ghost predicate Holding(ar: Arithmetic, p: Plan, start: Vec, toks: seq<Token>, m: Memory, was: Memory, n: nat, k: nat)
    requires |p.cells| == |p.chunks| && |toks| == p.Count() && k <= |p.chunks| && |m.states| == |was.states|
    requires forall j | 0 <= j < |p.cells| :: p.cells[j] < |was.states|
    requires p.load.Some? ==> p.load.value < |was.states|
  {
    && Region(m.delta, was.delta, p.at.delta, Outputs(ar, p.d, start, toks), n)
    && (p.hasZ ==> Region(m.z, was.z, p.at.z, GatedOutputs(ar, p.d, start, toks), n))
    && (forall c | c in p.cells || p.load == Some(c) :: m.states[c] == Saved(ar, p, start, toks, was.states, k)[c])
  }

  /** An address no instance owns. */
  ghost predicate Foreign(plans: seq<Plan>, m: Memory, was: Memory)
  {
    && |m.delta| == |was.delta| && |m.z| == |was.z| && |m.states| == |was.states|
    && (forall a | 0 <= a < |m.delta| ::
          || m.delta[a] == was.delta[a]
          || exists i :: 0 <= i < |plans| && plans[i].at.delta <= a < plans[i].at.delta + plans[i].Count())
    && (forall a | 0 <= a < |m.z| ::
          || m.z[a] == was.z[a]
          || exists i :: 0 <= i < |plans| && plans[i].hasZ && plans[i].at.z <= a < plans[i].at.z + plans[i].Count())
    && (forall a | 0 <= a < |m.states| ::
          m.states[a] == was.states[a] || exists i :: 0 <= i < |plans| && a in plans[i].cells)
  }

  lemma ProcessedInRange(p: Plan, t: Thread)
    requires InStep(p, t)
    ensures Processed(p, t) <= p.Count()
    ensures t.Running? && t.chunk < |p.chunks| && t.local < p.chunks[t.chunk] ==> Processed(p, t) < p.Count()
    ensures Done(p, t) ==> Processed(p, t) == p.Count()
  {
    if t.Running? && t.chunk < |p.chunks| {
      TokensMonotone(p.chunks, t.chunk + 1, |p.chunks|);
    }
  }

  /** A step keeps the stepping thread on track. */
  lemma OwnStep(ar: Arithmetic, ops: Operands, p: Plan, t: Thread, m: Memory, was: Memory)
    requires p.Fits(ops, |was.delta|, |was.z|, |was.states|) && OnTrack(ar, ops, p, t, m, was)
    ensures var (t', m') := Step(ar, ops, p, t, m); OnTrack(ar, ops, p, t', m', was)
  {
    if t.Running? && t.chunk < |p.chunks| {
      hide OnTrack, Step;
      if t.local < p.chunks[t.chunk] {
        TokenStep(ar, ops, p, t, m, was);
      } else {
        SaveStep(ar, ops, p, t, m, was);
      }
    }
  }

  /** On track, spelled out: where the thread is, and what memory holds. */
  ghost predicate At(ar: Arithmetic, p: Plan, start: Vec, toks: seq<Token>, t: Thread, m: Memory, was: Memory, n: nat)
    requires |p.cells| == |p.chunks| && |toks| == p.Count() && |m.states| == |was.states| && InStep(p, t)
    requires forall j | 0 <= j < |p.cells| :: p.cells[j] < |was.states|
    requires p.load.Some? ==> p.load.value < |was.states|
  {
    && n == Processed(p, t) <= |toks|
    && (t.Running? ==> t.state == StateAfter(ar, p.d, start, toks, n))
    && Holding(ar, p, start, toks, m, was, n, Saves(p, t))
  }

  lemma OnTrackIsAt(ar: Arithmetic, ops: Operands, p: Plan, t: Thread, m: Memory, was: Memory)
    requires p.Fits(ops, |was.delta|, |was.z|, |was.states|) && InStep(p, t)
    requires |m.delta| == |was.delta| && |m.z| == |was.z| && |m.states| == |was.states|
    ensures OnTrack(ar, ops, p, t, m, was) <==>
            At(ar, p, p.Start(ar, was.states), p.Lane(ops, was.delta, was.z, |was.states|), t, m, was, Processed(p, t))
  {
    hide Holding;
  }

  lemma SaveStep(ar: Arithmetic, ops: Operands, p: Plan, t: Thread, m: Memory, was: Memory)
    requires p.Fits(ops, |was.delta|, |was.z|, |was.states|) && OnTrack(ar, ops, p, t, m, was)
    requires t.Running? && t.chunk < |p.chunks| && t.local >= p.chunks[t.chunk]
    ensures var (t', m') := Step(ar, ops, p, t, m); OnTrack(ar, ops, p, t', m', was)
  {
    var toks, start := p.Lane(ops, was.delta, was.z, |was.states|), p.Start(ar, was.states);
    OnTrackIsAt(ar, ops, p, t, m, was);
    ProcessedInRange(p, t);
    StepsSave(ar, ops, p, t, m);
    var t' := Running(t.state, t.chunk + 1, 0);
    var m' := m.(states := m.states[p.cells[t.chunk] := t.state]);
    hide Holding, OnTrack, Plan.Lane, Step, StateAfter;
    SaveHolds(ar, p, start, toks, m, was, Processed(p, t), t.chunk, t.state);
    OnTrackIsAt(ar, ops, p, t', m', was);
  }

  lemma StepsSave(ar: Arithmetic, ops: Operands, p: Plan, t: Thread, m: Memory)
    requires p.Fits(ops, |m.delta|, |m.z|, |m.states|) && InStep(p, t)
    requires t.Running? && t.chunk < |p.chunks| && t.local >= p.chunks[t.chunk]
    ensures Step(ar, ops, p, t, m) ==
            (Running(t.state, t.chunk + 1, 0), m.(states := m.states[p.cells[t.chunk] := t.state]))
    ensures Processed(p, t) == Processed(p, Running(t.state, t.chunk + 1, 0)) == Tokens(p.chunks, t.chunk + 1)
  {
  }

  lemma SaveHolds(ar: Arithmetic, p: Plan, start: Vec, toks: seq<Token>, m: Memory, was: Memory, n: nat, k: nat,
      state: Vec)
    requires |p.cells| == |p.chunks| && |toks| == p.Count() && k < |p.chunks| && |m.states| == |was.states|
    requires forall j | 0 <= j < |p.cells| :: p.cells[j] < |was.states|
    requires p.load.Some? ==> p.load.value < |was.states|
    requires Holding(ar, p, start, toks, m, was, n, k) && n == Tokens(p.chunks, k + 1) <= |toks|
    requires state == StateAfter(ar, p.d, start, toks, n)
    ensures Holding(ar, p, start, toks, m.(states := m.states[p.cells[k] := state]), was, n, k + 1)
  {
    hide Region, Outputs, GatedOutputs;
    assert Saved(ar, p, start, toks, was.states, k + 1) ==
        Saved(ar, p, start, toks, was.states, k)[p.cells[k] := state];
  }

  lemma LaneToken(ops: Operands, p: Plan, delta: seq<Val>, z: seq<Val>, size: nat, n: nat)
    requires p.Fits(ops, |delta|, |z|, size) && n < p.Count()
    ensures p.Lane(ops, delta, z, size)[n] == Token(ops.u[p.at.u + n], delta[p.at.delta + n], ops.b[p.at.b + n],
                                                    ops.c[p.at.c + n], if p.hasZ then z[p.at.z + n] else 0.0)
  {
    hide Plan.Count;
  }

  lemma TokenStep(ar: Arithmetic, ops: Operands, p: Plan, t: Thread, m: Memory, was: Memory)
    requires p.Fits(ops, |was.delta|, |was.z|, |was.states|) && OnTrack(ar, ops, p, t, m, was)
    requires t.Running? && t.chunk < |p.chunks| && t.local < p.chunks[t.chunk]
    ensures var (t', m') := Step(ar, ops, p, t, m); OnTrack(ar, ops, p, t', m', was)
  {
    var toks, start := p.Lane(ops, was.delta, was.z, |was.states|), p.Start(ar, was.states);
    OnTrackIsAt(ar, ops, p, t, m, was);
    ProcessedInRange(p, t);
    var n := Processed(p, t);
    hide Holding, OnTrack, Plan.Lane, Step, OutputAt, GatedAt, StateAfter;
    LaneToken(ops, p, was.delta, was.z, |was.states|, n);
    TokenHolds(ar, p, start, toks, m, was, n, t.chunk);
    StepsToken(ar, ops, p, t, m, start, toks, n);
    var t' := Running(StateAfter(ar, p.d, start, toks, n + 1), t.chunk, t.local + 1);
    var m' := Step(ar, ops, p, t, m).1;
    OnTrackIsAt(ar, ops, p, t', m', was);
    hide Plan.Count, Plan.Fits, Plan.Start, Tokens;
  }

  lemma StepsToken(ar: Arithmetic, ops: Operands, p: Plan, t: Thread, m: Memory, start: Vec, toks: seq<Token>, n: nat)
    requires p.Fits(ops, |m.delta|, |m.z|, |m.states|) && InStep(p, t)
    requires t.Running? && t.chunk < |p.chunks| && t.local < p.chunks[t.chunk]
    requires n == Processed(p, t) < p.Count() == |toks|
    requires toks[n] == Token(ops.u[p.at.u + n], m.delta[p.at.delta + n], ops.b[p.at.b + n], ops.c[p.at.c + n],
                              if p.hasZ then m.z[p.at.z + n] else 0.0)
    requires t.state == StateAfter(ar, p.d, start, toks, n)
    ensures Step(ar, ops, p, t, m) ==
            (Running(StateAfter(ar, p.d, start, toks, n + 1), t.chunk, t.local + 1),
             m.(delta := m.delta[p.at.delta + n := OutputAt(ar, p.d, start, toks, n)],
                z := if p.hasZ then m.z[p.at.z + n := GatedAt(ar, p.d, start, toks, n)] else m.z))
    ensures Processed(p, Running(StateAfter(ar, p.d, start, toks, n + 1), t.chunk, t.local + 1)) == n + 1
  {
  }

  /** The next cells still hold their inputs, and may be replaced by the outputs. */
  lemma TokenHolds(ar: Arithmetic, p: Plan, start: Vec, toks: seq<Token>, m: Memory, was: Memory, n: nat, k: nat)
    requires |p.cells| == |p.chunks| && |toks| == p.Count() && k <= |p.chunks| && |m.states| == |was.states|
    requires forall j | 0 <= j < |p.cells| :: p.cells[j] < |was.states|
    requires p.load.Some? ==> p.load.value < |was.states|
    requires Holding(ar, p, start, toks, m, was, n, k) && n < |toks|
    ensures p.at.delta + n < |m.delta| == |was.delta| && m.delta[p.at.delta + n] == was.delta[p.at.delta + n]
    ensures p.hasZ ==> p.at.z + n < |m.z| == |was.z| && m.z[p.at.z + n] == was.z[p.at.z + n]
    ensures
      var delta := m.delta[p.at.delta + n := OutputAt(ar, p.d, start, toks, n)];
      var z := if p.hasZ then m.z[p.at.z + n := GatedAt(ar, p.d, start, toks, n)] else m.z;
      Holding(ar, p, start, toks, m.(delta := delta, z := z), was, n + 1, k)
  {
    var outs, gated := Outputs(ar, p.d, start, toks), GatedOutputs(ar, p.d, start, toks);
    RegionNext(m.delta, was.delta, p.at.delta, outs, n);
    if p.hasZ {
      RegionNext(m.z, was.z, p.at.z, gated, n);
    }
    hide Region, Saved;
  }

  lemma RegionNext(now: seq<Val>, was: seq<Val>, base: nat, outs: seq<Val>, n: nat)
    requires Region(now, was, base, outs, n) && n < |outs|
    ensures base + n < |now| == |was| && now[base + n] == was[base + n]
    ensures Region(now[base + n := outs[n]], was, base, outs, n + 1)
  {
  }

  /** What a step does not change. */
  lemma StepSpares(ar: Arithmetic, ops: Operands, p: Plan, t: Thread, m: Memory)
    requires p.Fits(ops, |m.delta|, |m.z|, |m.states|) && InStep(p, t)
    ensures
      var r := Step(ar, ops, p, t, m).1;
      && (forall a | 0 <= a < |m.delta| && !(p.at.delta <= a < p.at.delta + p.Count()) :: r.delta[a] == m.delta[a])
      && (forall a | 0 <= a < |m.z| && !(p.hasZ && p.at.z <= a < p.at.z + p.Count()) :: r.z[a] == m.z[a])
      && (forall a | 0 <= a < |m.states| && a !in p.cells :: r.states[a] == m.states[a])
  {
    ProcessedInRange(p, t);
  }

  /** A step keeps every other thread on track. */
  lemma OtherStep(ar: Arithmetic, ops: Operands, p: Plan, t: Thread, q: Plan, u: Thread, m: Memory, was: Memory)
    requires p.Fits(ops, |was.delta|, |was.z|, |was.states|) && q.Fits(ops, |was.delta|, |was.z|, |was.states|)
    requires OnTrack(ar, ops, p, t, m, was) && OnTrack(ar, ops, q, u, m, was)
    requires Apart(p, q)
    ensures OnTrack(ar, ops, q, u, Step(ar, ops, p, t, m).1, was)
  {
    StepSpares(ar, ops, p, t, m);
    var m' := Step(ar, ops, p, t, m).1;
    OnTrackIsAt(ar, ops, q, u, m, was);
    OnTrackIsAt(ar, ops, q, u, m', was);
    hide Step, OnTrack, Holding, Plan.Lane, StateAfter;
    StillHolding(ar, q, q.Start(ar, was.states), q.Lane(ops, was.delta, was.z, |was.states|), m, m', was,
                 Processed(q, u), Saves(q, u));
  }

  lemma StillHolding(
    ar: Arithmetic, q: Plan, start: Vec, toks: seq<Token>, m: Memory, m': Memory, was: Memory, n: nat, k: nat)
    requires |q.cells| == |q.chunks| && |toks| == q.Count() && k <= |q.chunks|
    requires |m.states| == |m'.states| == |was.states| && |m.delta| == |m'.delta| && |m.z| == |m'.z|
    requires forall j | 0 <= j < |q.cells| :: q.cells[j] < |was.states|
    requires q.load.Some? ==> q.load.value < |was.states|
    requires Holding(ar, q, start, toks, m, was, n, k)
    requires forall a | q.at.delta <= a < q.at.delta + q.Count() && a < |m.delta| :: m'.delta[a] == m.delta[a]
    requires q.hasZ ==> forall a | q.at.z <= a < q.at.z + q.Count() && a < |m.z| :: m'.z[a] == m.z[a]
    requires forall c | (c in q.cells || q.load == Some(c)) && c < |m.states| :: m'.states[c] == m.states[c]
    ensures Holding(ar, q, start, toks, m', was, n, k)
  {
    hide Plan.Count, Saved, StateAfter, OutputAt, GatedAt;
  }

  lemma StepOwnsWhatItWrites(ar: Arithmetic, ops: Operands, plans: seq<Plan>, i: nat, t: Thread, m: Memory, was: Memory)
    requires i < |plans| && plans[i].Fits(ops, |m.delta|, |m.z|, |m.states|) && InStep(plans[i], t)
    requires Foreign(plans, m, was)
    ensures Foreign(plans, Step(ar, ops, plans[i], t, m).1, was)
  {
    StepSpares(ar, ops, plans[i], t, m);
    hide Step, Plan.Count;
  }

  ghost predicate AllOnTrack(ar: Arithmetic, ops: Operands, plans: seq<Plan>, w: World, was: Memory)
    requires forall i | 0 <= i < |plans| :: plans[i].Fits(ops, |was.delta|, |was.z|, |was.states|)
  {
    && |w.threads| == |plans| && Foreign(plans, w.mem, was)
    && forall i | 0 <= i < |plans| :: OnTrack(ar, ops, plans[i], w.threads[i], w.mem, was)
  }

  /** Whatever the scheduler does, every thread is where its scan alone would be. */
  lemma {:induction false} EveryScheduleOnTrack(
    ar: Arithmetic, ops: Operands, plans: seq<Plan>, schedule: seq<nat>, was: Memory)
    requires forall i | 0 <= i < |plans| :: plans[i].Fits(ops, |was.delta|, |was.z|, |was.states|)
    requires Independent(plans) && forall k | 0 <= k < |schedule| :: schedule[k] < |plans|
    ensures AllOnTrack(ar, ops, plans, Run(ar, ops, plans, schedule, Begin(plans, was)), was)
  {
    assert Legal(ops, plans, Begin(plans, was));
    hide OnTrack, Foreign, Apart, Step, Plan.Fits, InStep;
    if schedule == [] {
      forall i | 0 <= i < |plans|
        ensures OnTrack(ar, ops, plans[i], Idle, was, was)
      {
        BeginsOnTrack(ar, ops, plans[i], was);
      }
      BeginsForeign(plans, was);
    } else {
      var w := Run(ar, ops, plans, schedule[..|schedule| - 1], Begin(plans, was));
      EveryScheduleOnTrack(ar, ops, plans, schedule[..|schedule| - 1], was);
      var i := schedule[|schedule| - 1];
      var next := StepWorld(ar, ops, plans, i, w);
      StepOwnsWhatItWrites(ar, ops, plans, i, w.threads[i], w.mem, was);
      forall j | 0 <= j < |plans|
        ensures OnTrack(ar, ops, plans[j], next.threads[j], next.mem, was)
      {
        if j == i {
          OwnStep(ar, ops, plans[i], w.threads[i], w.mem, was);
        } else {
          OtherStep(ar, ops, plans[i], w.threads[i], plans[j], w.threads[j], w.mem, was);
        }
      }
    }
  }

  lemma BeginsOnTrack(ar: Arithmetic, ops: Operands, p: Plan, was: Memory)
    requires p.Fits(ops, |was.delta|, |was.z|, |was.states|)
    ensures OnTrack(ar, ops, p, Idle, was, was)
  {
  }

  lemma BeginsForeign(plans: seq<Plan>, was: Memory)
    ensures Foreign(plans, was, was)
  {
  }

  /** The part of memory p owns is what the kernel leaves behind when it runs alone on `was` (see
      `SelectiveScanTurns.KernelLeavesAlone`). */
  ghost predicate Alone(ar: Arithmetic, ops: Operands, p: Plan, m: Memory, was: Memory)
    requires p.Fits(ops, |was.delta|, |was.z|, |was.states|)
  {
    && p.Fits(ops, |m.delta|, |m.z|, |m.states|)
    && var toks, start := p.Lane(ops, was.delta, was.z, |was.states|), p.Start(ar, was.states);
       && m.delta[p.at.delta..p.at.delta + p.Count()] == Outputs(ar, p.d, start, toks)
       && (p.hasZ ==> m.z[p.at.z..p.at.z + p.Count()] == GatedOutputs(ar, p.d, start, toks))
       && forall c | c in p.cells :: m.states[c] == Saved(ar, p, start, toks, was.states, |p.chunks|)[c]
  }

  /** When all threads are done, memory is determined, whatever the scheduler did: every instance's
      part holds what the instance computes alone, and the rest of memory is untouched. */
  lemma EveryScheduleIsAlone(ar: Arithmetic, ops: Operands, plans: seq<Plan>, schedule: seq<nat>, was: Memory)
    requires forall i | 0 <= i < |plans| :: plans[i].Fits(ops, |was.delta|, |was.z|, |was.states|)
    requires Independent(plans) && forall k | 0 <= k < |schedule| :: schedule[k] < |plans|
    requires var w := Run(ar, ops, plans, schedule, Begin(plans, was));
             forall i | 0 <= i < |plans| :: Done(plans[i], w.threads[i])
    ensures var m := Run(ar, ops, plans, schedule, Begin(plans, was)).mem;
            && Foreign(plans, m, was)
            && forall i | 0 <= i < |plans| :: Alone(ar, ops, plans[i], m, was)
  {
    EveryScheduleOnTrack(ar, ops, plans, schedule, was);
    var w := Run(ar, ops, plans, schedule, Begin(plans, was));
    hide Foreign, OnTrack, Plan.Fits, Run;
    forall i | 0 <= i < |plans|
      ensures Alone(ar, ops, plans[i], w.mem, was)
    {
      DoneIsAlone(ar, ops, plans[i], w.threads[i], w.mem, was);
    }
  }

  lemma DoneIsAlone(ar: Arithmetic, ops: Operands, p: Plan, t: Thread, m: Memory, was: Memory)
    requires p.Fits(ops, |was.delta|, |was.z|, |was.states|) && OnTrack(ar, ops, p, t, m, was) && Done(p, t)
    ensures Alone(ar, ops, p, m, was)
  {
    ProcessedInRange(p, t);
  }

  // ---------------------------------------------------------------------------------------
  // The instances of a launch are independent
  // ---------------------------------------------------------------------------------------

  /** Rows hold all tokens, and rows of different sequences do not overlap. */
  predicate RoomFor(l: Launch, t: Layout)
    requires l.Readable()
  {
    match l.queryStart
    case Some(q) => t.batchStride == 1 && q[l.batch] <= t.rowStride
    case None => l.seqlen <= t.rowStride && Scale(l.dim, t.rowStride) <= t.batchStride
  }

  /** Sequences do not share cache slots, unless all of them only read it. */
  ghost predicate SlotsApart(l: Launch)
    requires l.Readable()
  {
    forall i, j, k | 0 <= i < l.batch && 0 <= j < l.batch && i != j && !l.Skipped(i) && !l.Skipped(j)
                     && 0 <= k < |l.Chunks(i)| ::
      && (l.HasInitial(j) ==> l.StoreSlot(i, k) != l.LoadSlot(j))
      && (forall m | 0 <= m < |l.Chunks(j)| :: l.StoreSlot(i, k) != l.StoreSlot(j, m))
  }

  ghost predicate Separated(l: Launch) {
    && l.Readable()
    && RoomFor(l, l.delta) && (l.hasZ ==> RoomFor(l, l.z))
    && l.channelStride >= 1 && Scale(l.dim, l.channelStride) <= l.slotStride
    && (forall i | 0 <= i < l.batch :: Tokens(l.Chunks(i), |l.Chunks(i)|) <= l.SeqLen(i))
    && (forall i | 0 <= i < l.batch && !l.Skipped(i) :: l.Slotted(i))
    && SlotsApart(l)
  }

  lemma QueryMonotone(q: seq<nat>, i: nat, j: nat)
    requires i <= j < |q| && forall k | 0 <= k < |q| - 1 :: q[k] <= q[k + 1]
    ensures q[i] <= q[j]
    decreases j - i
  {
    if i < j {
      QueryMonotone(q, i, j - 1);
    }
  }

  /** Token ranges of different instances are disjoint. */
  lemma RangesApart(l: Launch, t: Layout, i: nat, d: nat, j: nat, e: nat)
    requires l.Readable() && RoomFor(l, t) && i < l.batch && j < l.batch && d < l.dim && e < l.dim && (i, d) != (j, e)
    ensures l.Base(t, d, i) + l.SeqLen(i) <= l.Base(t, e, j) || l.Base(t, e, j) + l.SeqLen(j) <= l.Base(t, d, i)
  {
    if l.Varlen() && d == e {
      if i < j { RangeBefore(l, t, i, d, j, e); } else { RangeBefore(l, t, j, e, i, d); }
    } else if l.Varlen() {
      if d < e { RangeBefore(l, t, i, d, j, e); } else { RangeBefore(l, t, j, e, i, d); }
    } else {
      if i < j || (i == j && d < e) { RangeBefore(l, t, i, d, j, e); } else { RangeBefore(l, t, j, e, i, d); }
    }
  }

  lemma RangeBefore(l: Launch, t: Layout, i: nat, d: nat, j: nat, e: nat)
    requires l.Readable() && RoomFor(l, t) && i < l.batch && j < l.batch && d < l.dim && e < l.dim
    requires if l.Varlen() then d < e || (d == e && i < j) else i < j || (i == j && d < e)
    ensures l.Base(t, d, i) + l.SeqLen(i) <= l.Base(t, e, j)
  {
    if l.Varlen() {
      var q := l.queryStart.value;
      QueryMonotone(q, i + 1, l.batch);
      if d < e { ScaleMonotone(d, e, t.rowStride); } else { QueryMonotone(q, i + 1, j); }
    } else {
      ScaleMonotone(d, l.dim, t.rowStride);
      if i < j { ScaleMonotone(i, j, t.batchStride); } else { ScaleMonotone(d, e, t.rowStride); }
    }
  }

  /** Different (slot, channel) pairs are different cells. */
  lemma CellsApart(l: Launch, s: nat, d: nat, r: nat, e: nat)
    requires l.channelStride >= 1 && Scale(l.dim, l.channelStride) <= l.slotStride && d < l.dim && e < l.dim
    requires (s, d) != (r, e)
    ensures l.StateAddress(s, d) != l.StateAddress(r, e)
  {
    ScaleMonotone(d, l.dim, l.channelStride);
    ScaleMonotone(e, l.dim, l.channelStride);
    if s < r { ScaleMonotone(s, r, l.slotStride); }
    if r < s { ScaleMonotone(r, s, l.slotStride); }
    if d < e { ScaleMonotone(d, e, l.channelStride); }
    if e < d { ScaleMonotone(e, d, l.channelStride); }
  }

  /** No instance of a separated launch writes what another one reads or writes. */
  lemma InstancesApart(l: Launch, i: nat, d: nat, j: nat, e: nat)
    requires Separated(l) && i < l.batch && j < l.batch && d < l.dim && e < l.dim && (i, d) != (j, e)
    requires !l.Skipped(i) && !l.Skipped(j)
    ensures l.Slotted(i) && l.Slotted(j) && Apart(PlanOf(l, i, d), PlanOf(l, j, e))
  {
    hide Launch.Readable, Launch.Chunks, Launch.StoreSlot, Launch.LoadSlot, Launch.Base, Launch.SeqLen,
         Launch.StateAddress, RoomFor;
    var p, q := PlanOf(l, i, d), PlanOf(l, j, e);
    RangesApart(l, l.delta, i, d, j, e);
    if l.hasZ {
      RangesApart(l, l.z, i, d, j, e);
    }
    forall c | c in p.cells
      ensures c !in q.cells && q.load != Some(c)
    {
      var k :| 0 <= k < |p.cells| && p.cells[k] == c;
      assert c == l.StateAddress(l.StoreSlot(i, k), d);
      if l.HasInitial(j) {
        CellsApart(l, l.StoreSlot(i, k), d, l.LoadSlot(j), e);
      }
      forall m | 0 <= m < |q.cells|
        ensures q.cells[m] != c
      {
        CellsApart(l, l.StoreSlot(i, k), d, l.StoreSlot(j, m), e);
      }
    }
  }

  /** So any set of different instances of a separated launch may run in any interleaving. */
  lemma GridIsIndependent(l: Launch, ids: seq<(nat, nat)>, plans: seq<Plan>)
    requires Separated(l) && |plans| == |ids|
    requires forall a | 0 <= a < |ids| :: ids[a].0 < l.batch && ids[a].1 < l.dim && !l.Skipped(ids[a].0)
              && l.Slotted(ids[a].0)
    requires forall a, b | 0 <= a < b < |ids| :: ids[a] != ids[b]
    requires forall a | 0 <= a < |ids| :: plans[a] == PlanOf(l, ids[a].0, ids[a].1)
    ensures Independent(plans)
  {
    forall a, b | 0 <= a < |plans| && 0 <= b < |plans| && a != b
      ensures Apart(plans[a], plans[b])
    {
      InstancesApart(l, ids[a].0, ids[a].1, ids[b].0, ids[b].1);
    }
  }

  /** Every channel reads a row of B and C that exists, exactly when the groups divide the channels. */
  lemma GroupsExist(dim: nat, groups: nat)
    requires 0 < groups <= dim
    ensures (forall d: nat | d < dim :: GroupOf(d, dim, groups) < groups) <==> Rem(dim, groups) == 0
  {
    var ratio := Quot(dim, groups);
    Divide(dim, groups);
    QuotPositive(dim, groups);
    ScaleSwap(ratio, groups);
    if Rem(dim, groups) == 0 {
      forall d: nat | d < dim
        ensures Quot(d, ratio) < groups
      {
        Divide(d, ratio);
        ScaleMonotone(groups, Quot(d, ratio), ratio);
        hide Quot, Rem, Scale;
      }
    } else {
      QuotientUnique(Scale(groups, ratio), ratio, groups, 0);
      assert GroupOf(Scale(groups, ratio), dim, groups) == groups;
    }
  }
}
