/** Program instances of the selective-scan kernel that run to their end (overlay/vllm/_xpu_ops.py).

    Some schedule finishes all instances, all schedules that do leave the same memory, and it is the memory that
    calling the kernel for one instance after the other leaves. */
module SelectiveScanTurns {
  import opened Scaling
  import opened Wrappers
  import opened SelectiveScan
  import opened SelectiveScanGrid
  import opened MambaChunks

  ghost predicate AllFit(ops: Operands, plans: seq<Plan>, m: Memory) {
    forall i | 0 <= i < |plans| :: plans[i].Fits(ops, |m.delta|, |m.z|, |m.states|)
  }

  predicate ScheduleFor(plans: seq<Plan>, schedule: seq<nat>) {
    forall k | 0 <= k < |schedule| :: schedule[k] < |plans|
  }

  lemma BeginsLegal(ops: Operands, plans: seq<Plan>, was: Memory)
    requires AllFit(ops, plans, was)
    ensures Legal(ops, plans, Begin(plans, was))
  {
    hide Plan.Fits;
  }

  /** The world after a schedule. */
  function WorldAfter(ar: Arithmetic, ops: Operands, plans: seq<Plan>, schedule: seq<nat>, was: Memory): (w: World)
    requires AllFit(ops, plans, was) && ScheduleFor(plans, schedule)
    ensures Legal(ops, plans, w)
  {
    BeginsLegal(ops, plans, was);
    Run(ar, ops, plans, schedule, Begin(plans, was))
  }

  /** The threads after a schedule. */
  function ThreadsAfter(ar: Arithmetic, ops: Operands, plans: seq<Plan>, schedule: seq<nat>, was: Memory)
    : (ts: seq<Thread>)
    requires AllFit(ops, plans, was) && ScheduleFor(plans, schedule)
    ensures |ts| == |plans| && forall i | 0 <= i < |plans| :: InStep(plans[i], ts[i])
  {
    WorldAfter(ar, ops, plans, schedule, was).threads
  }

  /** The schedule runs every thread to its end. */
  ghost predicate Finishes(ar: Arithmetic, ops: Operands, plans: seq<Plan>, schedule: seq<nat>, was: Memory)
    requires AllFit(ops, plans, was) && ScheduleFor(plans, schedule)
  {
    forall i | 0 <= i < |plans| :: Done(plans[i], ThreadsAfter(ar, ops, plans, schedule, was)[i])
  }

  /** The memory a schedule leaves. */
  function Left(ar: Arithmetic, ops: Operands, plans: seq<Plan>, schedule: seq<nat>, was: Memory): Memory
    requires AllFit(ops, plans, was) && ScheduleFor(plans, schedule)
  {
    WorldAfter(ar, ops, plans, schedule, was).mem
  }

  // ---------------------------------------------------------------------------------------
  // Memory is determined
  // ---------------------------------------------------------------------------------------

  ghost predicate AllAlone(ar: Arithmetic, ops: Operands, plans: seq<Plan>, m: Memory, was: Memory)
    requires AllFit(ops, plans, was)
  {
    Foreign(plans, m, was) && forall i | 0 <= i < |plans| :: Alone(ar, ops, plans[i], m, was)
  }

  /** One instance leaves the same results. */
  lemma AloneAgree(ar: Arithmetic, ops: Operands, p: Plan, m: Memory, n: Memory, was: Memory)
    requires p.Fits(ops, |was.delta|, |was.z|, |was.states|) && Alone(ar, ops, p, m, was) && Alone(ar, ops, p, n, was)
    ensures p.Fits(ops, |m.delta|, |m.z|, |m.states|) && p.Fits(ops, |n.delta|, |n.z|, |n.states|)
    ensures Agree(m.delta, n.delta, p.at.delta, p.Count())
    ensures p.hasZ ==> Agree(m.z, n.z, p.at.z, p.Count())
    ensures forall c | c in p.cells :: m.states[c] == n.states[c]
  {
    hide Outputs, GatedOutputs, Saved, Plan.Lane, Plan.Count, Agree, Plan.Start;
    PartsAgree(m.delta, n.delta, p.at.delta, p.Count());
    if p.hasZ {
      PartsAgree(m.z, n.z, p.at.z, p.Count());
    }
  }

  ghost predicate Agree(m: seq<Val>, n: seq<Val>, base: nat, size: nat) {
    base + size <= |m| && base + size <= |n| && forall a | base <= a < base + size :: m[a] == n[a]
  }

  lemma PartsAgree(m: seq<Val>, n: seq<Val>, base: nat, size: nat)
    requires base + size <= |m| && base + size <= |n| && m[base..base + size] == n[base..base + size]
    ensures Agree(m, n, base, size)
  {
    forall a | base <= a < base + size
      ensures m[a] == n[a]
    {
      assert m[a] == m[base..base + size][a - base];
      assert n[a] == n[base..base + size][a - base];
    }
  }

  lemma SameDelta(ar: Arithmetic, ops: Operands, plans: seq<Plan>, m: Memory, n: Memory, was: Memory, a: nat)
    requires AllFit(ops, plans, was) && AllAlone(ar, ops, plans, m, was) && AllAlone(ar, ops, plans, n, was)
    requires a < |was.delta|
    ensures |m.delta| == |n.delta| == |was.delta| && m.delta[a] == n.delta[a]
  {
    hide Plan.Count, Alone, Plan.Fits;
    if i :| 0 <= i < |plans| && plans[i].at.delta <= a < plans[i].at.delta + plans[i].Count() {
      AloneAgree(ar, ops, plans[i], m, n, was);
    }
  }

  lemma SameZ(ar: Arithmetic, ops: Operands, plans: seq<Plan>, m: Memory, n: Memory, was: Memory, a: nat)
    requires AllFit(ops, plans, was) && AllAlone(ar, ops, plans, m, was) && AllAlone(ar, ops, plans, n, was)
    requires a < |was.z|
    ensures |m.z| == |n.z| == |was.z| && m.z[a] == n.z[a]
  {
    hide Plan.Count, Alone, Plan.Fits;
    if i :| 0 <= i < |plans| && plans[i].hasZ && plans[i].at.z <= a < plans[i].at.z + plans[i].Count() {
      AloneAgree(ar, ops, plans[i], m, n, was);
    }
  }

  lemma SameStates(ar: Arithmetic, ops: Operands, plans: seq<Plan>, m: Memory, n: Memory, was: Memory, a: nat)
    requires AllFit(ops, plans, was) && AllAlone(ar, ops, plans, m, was) && AllAlone(ar, ops, plans, n, was)
    requires a < |was.states|
    ensures |m.states| == |n.states| == |was.states| && m.states[a] == n.states[a]
  {
    hide Plan.Count, Alone, Plan.Fits;
    if i :| 0 <= i < |plans| && a in plans[i].cells {
      AloneAgree(ar, ops, plans[i], m, n, was);
    }
  }

  /** Memory in which every instance has its results, and nothing else changed, is one memory. */
  lemma AloneDetermines(ar: Arithmetic, ops: Operands, plans: seq<Plan>, m: Memory, n: Memory, was: Memory)
    requires AllFit(ops, plans, was) && AllAlone(ar, ops, plans, m, was) && AllAlone(ar, ops, plans, n, was)
    ensures m == n
  {
    assert |m.delta| == |n.delta| == |was.delta| && |m.z| == |n.z| == |was.z|
        && |m.states| == |n.states| == |was.states|;
    hide AllFit, AllAlone;
    forall a | 0 <= a < |was.delta| ensures m.delta[a] == n.delta[a] { SameDelta(ar, ops, plans, m, n, was, a); }
    forall a | 0 <= a < |was.z| ensures m.z[a] == n.z[a] { SameZ(ar, ops, plans, m, n, was, a); }
    forall a | 0 <= a < |was.states| ensures m.states[a] == n.states[a] { SameStates(ar, ops, plans, m, n, was, a); }
  }

  lemma FinishedIsAlone(ar: Arithmetic, ops: Operands, plans: seq<Plan>, schedule: seq<nat>, was: Memory)
    requires AllFit(ops, plans, was) && Independent(plans) && ScheduleFor(plans, schedule)
    requires Finishes(ar, ops, plans, schedule, was)
    ensures AllAlone(ar, ops, plans, Left(ar, ops, plans, schedule, was), was)
  {
    BeginsLegal(ops, plans, was);
    hide Plan.Fits, Independent, Run, Done;
    EveryScheduleIsAlone(ar, ops, plans, schedule, was);
    hide Alone, Foreign;
  }

  /** Any two schedules that finish leave the same memory. */
  lemma SchedulesAgree(ar: Arithmetic, ops: Operands, plans: seq<Plan>, one: seq<nat>, other: seq<nat>, was: Memory)
    requires AllFit(ops, plans, was) && Independent(plans) && ScheduleFor(plans, one) && ScheduleFor(plans, other)
    requires Finishes(ar, ops, plans, one, was) && Finishes(ar, ops, plans, other, was)
    ensures Left(ar, ops, plans, one, was) == Left(ar, ops, plans, other, was)
  {
    hide *;
    FinishedIsAlone(ar, ops, plans, one, was);
    FinishedIsAlone(ar, ops, plans, other, was);
    AloneDetermines(ar, ops, plans, Left(ar, ops, plans, one, was), Left(ar, ops, plans, other, was), was);
  }

  // ---------------------------------------------------------------------------------------
  // Some schedule finishes
  // ---------------------------------------------------------------------------------------

  /** The steps a thread still has to take. */
  function Remaining(p: Plan, t: Thread): nat
    requires InStep(p, t)
  {
    if t.Idle? then 1 + p.Count() + |p.chunks|
    else
      ProcessedInRange(p, t);
      (p.Count() - Processed(p, t)) + (|p.chunks| - t.chunk)
  }

  lemma StepsDown(ar: Arithmetic, ops: Operands, p: Plan, t: Thread, m: Memory)
    requires p.Fits(ops, |m.delta|, |m.z|, |m.states|) && InStep(p, t) && !Done(p, t)
    ensures Remaining(p, Step(ar, ops, p, t, m).0) < Remaining(p, t)
  {
    ProcessedInRange(p, t);
    ProcessedInRange(p, Step(ar, ops, p, t, m).0);
  }

  lemma OneMoreStep(ar: Arithmetic, ops: Operands, plans: seq<Plan>, schedule: seq<nat>, i: nat, was: Memory)
    requires AllFit(ops, plans, was) && ScheduleFor(plans, schedule) && i < |plans|
    ensures ScheduleFor(plans, schedule + [i])
    ensures WorldAfter(ar, ops, plans, schedule + [i], was) ==
              StepWorld(ar, ops, plans, i, WorldAfter(ar, ops, plans, schedule, was))
  {
    BeginsLegal(ops, plans, was);
    assert (schedule + [i])[..|schedule|] == schedule;
    hide StepWorld, Legal;
  }

  lemma StepOfThread(ar: Arithmetic, ops: Operands, plans: seq<Plan>, schedule: seq<nat>, i: nat, was: Memory)
    requires AllFit(ops, plans, was) && ScheduleFor(plans, schedule) && i < |plans|
    requires !Done(plans[i], ThreadsAfter(ar, ops, plans, schedule, was)[i])
    ensures ScheduleFor(plans, schedule + [i])
    ensures
      var before := ThreadsAfter(ar, ops, plans, schedule, was);
      var after := ThreadsAfter(ar, ops, plans, schedule + [i], was);
      && after == before[i := after[i]]
      && Remaining(plans[i], after[i]) < Remaining(plans[i], before[i])
  {
    BeginsLegal(ops, plans, was);
    OneMoreStep(ar, ops, plans, schedule, i, was);
    var w := Run(ar, ops, plans, schedule, Begin(plans, was));
    StepsDown(ar, ops, plans[i], w.threads[i], w.mem);
    hide Remaining, Step, Plan.Fits, InStep;
  }

  lemma {:induction false} FinishThread(
    ar: Arithmetic, ops: Operands, plans: seq<Plan>, schedule: seq<nat>, i: nat, was: Memory)
    returns (longer: seq<nat>)
    requires AllFit(ops, plans, was) && ScheduleFor(plans, schedule) && i < |plans|
    ensures ScheduleFor(plans, longer)
    ensures
      var before, after := ThreadsAfter(ar, ops, plans, schedule, was), ThreadsAfter(ar, ops, plans, longer, was);
      Done(plans[i], after[i]) && forall j | 0 <= j < |plans| && j != i :: after[j] == before[j]
    decreases Remaining(plans[i], ThreadsAfter(ar, ops, plans, schedule, was)[i])
  {
    hide ThreadsAfter, Remaining, Done, AllFit;
    if Done(plans[i], ThreadsAfter(ar, ops, plans, schedule, was)[i]) {
      longer := schedule;
    } else {
      StepOfThread(ar, ops, plans, schedule, i, was);
      longer := FinishThread(ar, ops, plans, schedule + [i], i, was);
    }
  }

  /** Running the threads one after the other finishes them. */
  lemma SomeScheduleFinishes(ar: Arithmetic, ops: Operands, plans: seq<Plan>, was: Memory) returns (schedule: seq<nat>)
    requires AllFit(ops, plans, was)
    ensures ScheduleFor(plans, schedule) && Finishes(ar, ops, plans, schedule, was)
  {
    schedule := [];
    hide ThreadsAfter, Done, AllFit;
    for i := 0 to |plans|
      invariant ScheduleFor(plans, schedule)
      invariant forall j | 0 <= j < i :: Done(plans[j], ThreadsAfter(ar, ops, plans, schedule, was)[j])
    {
      schedule := FinishThread(ar, ops, plans, schedule, i, was);
    }
  }

  // ---------------------------------------------------------------------------------------
  // The kernel, instance after instance
  // ---------------------------------------------------------------------------------------

  /** What a call of the kernel ensures (the contract of ScanKernel, for a sequence that is not skipped). */
  ghost predicate KernelDid(ar: Arithmetic, ops: Operands, p: Plan, m: Memory, after: Memory) {
    && p.Fits(ops, |m.delta|, |m.z|, |m.states|)
    && var toks, start := p.Lane(ops, m.delta, m.z, |m.states|), p.Start(ar, m.states);
       && Progress(ar, p.d, p.at, p.hasZ, start, toks, after.delta, m.delta, after.z, m.z, |toks|)
       && after.states == Saved(ar, p, start, toks, m.states, |p.chunks|)
  }

  /** Calling the kernel method is such a call. */
  method CallKernel(l: Launch, ar: Arithmetic, ops: Operands, i: nat, d: nat, delta: array<Val>, z: array<Val>,
                    states: array<Vec>)
    requires l.Readable() && i < l.batch && d < l.dim && delta != z && !l.Skipped(i) && l.Slotted(i)
    requires PlanOf(l, i, d).Fits(ops, delta.Length, z.Length, states.Length)
    modifies delta, z, states
    ensures KernelDid(ar, ops, PlanOf(l, i, d), Memory(old(delta[..]), old(z[..]), old(states[..])),
                      Memory(delta[..], z[..], states[..]))
  {
    PlanParts(l, i, d);
    hide PlanOf, Progress, Saved, Plan.Lane, Plan.Fits, Launch.Readable, Launch.Slotted, Launch.Skipped;
    ScanKernel(l, ar, ops, i, d, delta, z, delta, z, states);
  }

  /** The part of memory p reads is as it was. */
  ghost predicate Untouched(p: Plan, m: Memory, was: Memory) {
    && |m.delta| == |was.delta| && |m.z| == |was.z| && |m.states| == |was.states|
    && (forall a | p.at.delta <= a < p.at.delta + p.Count() && a < |was.delta| :: m.delta[a] == was.delta[a])
    && (p.hasZ ==> forall a | p.at.z <= a < p.at.z + p.Count() && a < |was.z| :: m.z[a] == was.z[a])
    && (forall c | (c in p.cells || p.load == Some(c)) && c < |was.states| :: m.states[c] == was.states[c])
  }

  lemma {:induction false} SavedPart(
    ar: Arithmetic, p: Plan, start: Vec, toks: seq<Token>, m: seq<Vec>, n: seq<Vec>, k: nat, a: nat)
    requires |p.cells| == |p.chunks| && |toks| == p.Count() && k <= |p.chunks| && |m| == |n| && a < |m|
    requires forall j | 0 <= j < |p.cells| :: p.cells[j] < |m|
    requires m[a] == n[a]
    ensures Saved(ar, p, start, toks, m, k)[a] == Saved(ar, p, start, toks, n, k)[a]
    ensures a !in p.cells ==> Saved(ar, p, start, toks, m, k)[a] == m[a]
    decreases k
  {
    if k > 0 {
      TokensMonotone(p.chunks, k, |p.chunks|);
      SavedPart(ar, p, start, toks, m, n, k - 1, a);
      hide StateAfter, Tokens;
    }
  }

  lemma UntouchedReads(ar: Arithmetic, ops: Operands, p: Plan, m: Memory, was: Memory)
    requires p.Fits(ops, |was.delta|, |was.z|, |was.states|) && Untouched(p, m, was)
    ensures p.Fits(ops, |m.delta|, |m.z|, |m.states|)
    ensures p.Lane(ops, m.delta, m.z, |m.states|) == p.Lane(ops, was.delta, was.z, |was.states|)
    ensures p.Start(ar, m.states) == p.Start(ar, was.states)
  {
  }

  /** An instance whose part of memory was not touched leaves there what it computes alone. */
  lemma KernelLeavesAlone(ar: Arithmetic, ops: Operands, p: Plan, m: Memory, after: Memory, was: Memory)
    requires p.Fits(ops, |was.delta|, |was.z|, |was.states|) && Untouched(p, m, was) && KernelDid(ar, ops, p, m, after)
    ensures Alone(ar, ops, p, after, was)
  {
    UntouchedReads(ar, ops, p, m, was);
    var toks, start := p.Lane(ops, was.delta, was.z, |was.states|), p.Start(ar, was.states);
    assert |after.delta| == |was.delta| && |after.z| == |was.z| && |after.states| == |was.states|;
    forall c | c in p.cells
      ensures after.states[c] == Saved(ar, p, start, toks, was.states, |p.chunks|)[c]
    {
      SavedPart(ar, p, start, toks, m.states, was.states, |p.chunks|, c);
    }
    hide Saved, Plan.Lane, Outputs, GatedOutputs;
    OutputSizes(ar, p.d, start, toks);
    assert after.delta[p.at.delta..p.at.delta + p.Count()] == Outputs(ar, p.d, start, toks);
    assert p.hasZ ==> after.z[p.at.z..p.at.z + p.Count()] == GatedOutputs(ar, p.d, start, toks);
  }

  lemma OutputSizes(ar: Arithmetic, d: nat, start: Vec, toks: seq<Token>)
    ensures |Outputs(ar, d, start, toks)| == |GatedOutputs(ar, d, start, toks)| == |toks|
  {
  }

  /** What a call of the kernel does not change. */
  lemma KernelSpares(ar: Arithmetic, ops: Operands, p: Plan, m: Memory, after: Memory)
    requires KernelDid(ar, ops, p, m, after)
    ensures |after.delta| == |m.delta| && |after.z| == |m.z| && |after.states| == |m.states|
    ensures forall a | 0 <= a < |m.delta| && !(p.at.delta <= a < p.at.delta + p.Count()) :: after.delta[a] == m.delta[a]
    ensures forall a | 0 <= a < |m.z| && !(p.hasZ && p.at.z <= a < p.at.z + p.Count()) :: after.z[a] == m.z[a]
    ensures forall a | 0 <= a < |m.states| && a !in p.cells :: after.states[a] == m.states[a]
  {
    var toks, start := p.Lane(ops, m.delta, m.z, |m.states|), p.Start(ar, m.states);
    OutputSizes(ar, p.d, start, toks);
    forall a | 0 <= a < |m.states| && a !in p.cells
      ensures after.states[a] == m.states[a]
    {
      SavedPart(ar, p, start, toks, m.states, m.states, |p.chunks|, a);
    }
    hide Saved, Plan.Lane, Outputs, GatedOutputs;
  }

  lemma StaysUntouched(ar: Arithmetic, ops: Operands, p: Plan, q: Plan, m: Memory, after: Memory, was: Memory)
    requires KernelDid(ar, ops, p, m, after) && Apart(p, q) && Untouched(q, m, was)
    ensures Untouched(q, after, was)
  {
    hide KernelDid, Plan.Count;
    KernelSpares(ar, ops, p, m, after);
  }

  lemma StaysAlone(ar: Arithmetic, ops: Operands, p: Plan, q: Plan, m: Memory, after: Memory, was: Memory)
    requires q.Fits(ops, |was.delta|, |was.z|, |was.states|)
    requires KernelDid(ar, ops, p, m, after) && Apart(p, q) && Alone(ar, ops, q, m, was)
    ensures Alone(ar, ops, q, after, was)
  {
    hide KernelDid, Plan.Count, Saved, Outputs, GatedOutputs, Plan.Lane;
    KernelSpares(ar, ops, p, m, after);
    assert after.delta[q.at.delta..q.at.delta + q.Count()] == m.delta[q.at.delta..q.at.delta + q.Count()];
    assert q.hasZ ==> after.z[q.at.z..q.at.z + q.Count()] == m.z[q.at.z..q.at.z + q.Count()];
  }

  lemma StaysForeign(ar: Arithmetic, ops: Operands, plans: seq<Plan>, i: nat, m: Memory, after: Memory, was: Memory)
    requires i < |plans| && KernelDid(ar, ops, plans[i], m, after) && Foreign(plans, m, was)
    ensures Foreign(plans, after, was)
  {
    hide KernelDid, Plan.Count;
    KernelSpares(ar, ops, plans[i], m, after);
  }

  /** The memories between the calls. */
  ghost predicate InTurn(ar: Arithmetic, ops: Operands, plans: seq<Plan>, trace: seq<Memory>) {
    && |trace| == |plans| + 1
    && forall k | 0 <= k < |plans| :: Turn(ar, ops, plans, trace, k)
  }

  ghost predicate Turn(ar: Arithmetic, ops: Operands, plans: seq<Plan>, trace: seq<Memory>, k: nat)
    requires k < |plans| && |trace| == |plans| + 1
  {
    KernelDid(ar, ops, plans[k], trace[k], trace[k + 1])
  }

  /** The first k instances have run, and nothing else has happened. */
  ghost predicate HaveRun(ar: Arithmetic, ops: Operands, plans: seq<Plan>, m: Memory, was: Memory, k: nat)
    requires AllFit(ops, plans, was) && k <= |plans|
  {
    && Foreign(plans, m, was)
    && (forall i | 0 <= i < k :: Alone(ar, ops, plans[i], m, was))
    && (forall i | k <= i < |plans| :: Untouched(plans[i], m, was))
  }

  lemma NoneHasRun(ar: Arithmetic, ops: Operands, plans: seq<Plan>, was: Memory)
    requires AllFit(ops, plans, was)
    ensures HaveRun(ar, ops, plans, was, was, 0)
  {
    BeginsForeign(plans, was);
    hide Foreign, Plan.Fits;
  }

  lemma OneMoreHasRun(ar: Arithmetic, ops: Operands, plans: seq<Plan>, m: Memory, after: Memory, was: Memory, k: nat)
    requires AllFit(ops, plans, was) && Independent(plans) && k < |plans|
    requires HaveRun(ar, ops, plans, m, was, k) && KernelDid(ar, ops, plans[k], m, after)
    ensures HaveRun(ar, ops, plans, after, was, k + 1)
  {
    hide KernelDid, Foreign, Alone, Untouched, Apart, Plan.Fits;
    var p := plans[k];
    StaysForeign(ar, ops, plans, k, m, after, was);
    KernelLeavesAlone(ar, ops, p, m, after, was);
    forall i | 0 <= i < k
      ensures Alone(ar, ops, plans[i], after, was)
    {
      StaysAlone(ar, ops, p, plans[i], m, after, was);
    }
    forall i | k + 1 <= i < |plans|
      ensures Untouched(plans[i], after, was)
    {
      StaysUntouched(ar, ops, p, plans[i], m, after, was);
    }
  }

  lemma {:induction false} AfterTurns(ar: Arithmetic, ops: Operands, plans: seq<Plan>, trace: seq<Memory>, k: nat)
    requires InTurn(ar, ops, plans, trace) && AllFit(ops, plans, trace[0]) && Independent(plans) && k <= |plans|
    ensures HaveRun(ar, ops, plans, trace[k], trace[0], k)
  {
    hide HaveRun, AllFit, Independent, KernelDid;
    if k == 0 {
      NoneHasRun(ar, ops, plans, trace[0]);
    } else {
      AfterTurns(ar, ops, plans, trace, k - 1);
      assert Turn(ar, ops, plans, trace, k - 1);
      OneMoreHasRun(ar, ops, plans, trace[k - 1], trace[k], trace[0], k - 1);
    }
  }

  /** Calling the kernel for one instance after the other leaves what any finished schedule of the instances
      leaves. */
  lemma TurnsAreAnySchedule(ar: Arithmetic, ops: Operands, plans: seq<Plan>, trace: seq<Memory>, schedule: seq<nat>)
    requires InTurn(ar, ops, plans, trace) && AllFit(ops, plans, trace[0]) && Independent(plans)
    requires ScheduleFor(plans, schedule) && Finishes(ar, ops, plans, schedule, trace[0])
    ensures trace[|plans|] == Left(ar, ops, plans, schedule, trace[0])
  {
    AfterTurns(ar, ops, plans, trace, |plans|);
    hide KernelDid, Alone, Foreign, Untouched;
    assert AllAlone(ar, ops, plans, trace[|plans|], trace[0]);
    hide *;
    FinishedIsAlone(ar, ops, plans, schedule, trace[0]);
    AloneDetermines(ar, ops, plans, trace[|plans|], Left(ar, ops, plans, schedule, trace[0]), trace[0]);
  }

  // ---------------------------------------------------------------------------------------
  // Such launches exist
  // ---------------------------------------------------------------------------------------

  /** Two prompts with blocks of two tokens: three new tokens after two computed ones, and one token of a new
      prompt. */
  function TwoPrompts(): Launch {
    var rows := Layout(1, 4);
    Launch(2, 1, 3, 1, Some([0, 3, 4]), rows, rows, rows, rows, rows, false, 1, 1, Some([1, 2, 3, 4, 0, 0]), 3, 0,
           Some([true, false]), 2, Some(PrefixCache([1, 0], [2, 0], [0, 0], [0, 2, 3, 4], [1, 2])))
  }

  lemma TwoPromptsReadable()
    ensures TwoPrompts().Readable()
  {
  }

  lemma TwoPromptsChunks()
    ensures TwoPrompts().Readable() && TwoPrompts().Chunks(0) == [2, 1] && TwoPrompts().Chunks(1) == [1]
  {
    TwoPromptsReadable();
    hide Launch.Readable;
  }

  lemma SmallQuots()
    ensures Quot(0, 2) == 0 && Quot(1, 2) == 0 && Quot(2, 2) == 1 && Quot(3, 2) == 1 && Quot(4, 2) == 2
              && Quot(6, 2) == 3
    ensures Rem(0, 2) == 0 && Rem(2, 2) == 0 && Rem(4, 2) == 0
  {
  }

  lemma LastPiece(c: nat, n: nat, size: nat)
    requires size > 0 && 0 < n <= size && Rem(c, size) == 0
    ensures Pieces(c, n, size) == [n]
  {
    hide Rem;
  }

  lemma WholeBlock(c: nat, n: nat, size: nat)
    requires 0 < size < n && Rem(c, size) == 0
    ensures Pieces(c, n, size) == [size] + Pieces(c + size, n - size, size)
  {
    hide Rem;
  }

  lemma SmallPieces()
    ensures Pieces(2, 3, 2) == [2, 1] && Pieces(0, 1, 2) == [1]
  {
    SmallQuots();
    hide *;
    WholeBlock(2, 3, 2);
    LastPiece(4, 1, 2);
    LastPiece(0, 1, 2);
  }

  lemma LastBlockIs(t: nat, size: nat, q: nat, m: nat)
    requires m < size && t == Scale(q, size) + m + 1
    ensures BlockOfLast(t, size) == q
  {
    hide *;
    ScaleNext(q, size);
    QuotientUnique(t + size - 1, size, q + 1, m);
    CeilDivIs(t, size);
    BlockOfLastIs(t, size, q);
  }

  lemma CeilDivIs(t: nat, size: nat)
    requires size > 0
    ensures CeilDiv(t, size) == Quot(t + size - 1, size)
  {
    hide Quot;
  }

  lemma NoBlock(size: nat)
    requires size > 0
    ensures BlockOfLast(0, size) == 0
  {
    ScaleOne(size);
    QuotientUnique(size - 1, size, 0, size - 1);
    hide Quot, Scale;
  }

  lemma SmallBlocks(l: Launch)
    requires l.blockSize == 2
    ensures BlockFirst(2, l.blockSize) == 1 && BlockFirst(0, l.blockSize) == 0
    ensures BlockOfLast(5, l.blockSize) == 2 && BlockOfLast(2, l.blockSize) == 0
    ensures BlockOfLast(1, l.blockSize) == 0 && BlockOfLast(0, l.blockSize) == 0
  {
    hide *;
    ScaleOne(l.blockSize);
    ScaleNext(1, l.blockSize);
    QuotientUnique(0, l.blockSize, 0, 0);
    QuotientUnique(2, l.blockSize, 1, 0);
    BlockFirstIs(2, l.blockSize);
    BlockFirstIs(0, l.blockSize);
    LastBlockIs(5, l.blockSize, 2, 0);
    LastBlockIs(2, l.blockSize, 0, 1);
    LastBlockIs(1, l.blockSize, 0, 0);
    NoBlock(l.blockSize);
  }

  lemma TwoPromptsScheduled()
    ensures TwoPrompts().Readable() && Scheduled(TwoPrompts(), 0, 2, 3) && Scheduled(TwoPrompts(), 1, 0, 1)
  {
    TwoPromptsChunks();
    SmallPieces();
    SmallBlocks(TwoPrompts());
    hide Launch.Readable, Launch.Chunks, Quot, Rem, Pieces, BlockFirst, BlockOfLast;
  }

  lemma ColumnOf(l: Launch, i: nat, c: nat, n: nat, k: nat, q: nat)
    requires l.Readable() && i < l.batch && Scheduled(l, i, c, n) && k < |l.Chunks(i)|
    requires l.prefixCache.Some? && l.blockSize > 0 && Quot(c, l.blockSize) == q
    ensures l.StoreColumn(l.prefixCache.value, i, k) == q + k
  {
    hide *;
    CheckpointBlocks(l, i, c, n, k);
  }

  lemma TableOf(l: Launch)
    requires l.cacheStride == 3
    ensures l.CacheAt(0, 0) == 0 && l.CacheAt(0, 1) == 1 && l.CacheAt(0, 2) == 2 && l.CacheAt(1, 0) == 3
  {
    ScaleOne(l.cacheStride);
    hide Scale;
  }

  lemma TwoPromptsSlots()
    ensures
      var l := TwoPrompts();
      && l.Readable() && |l.Chunks(0)| == 2 && |l.Chunks(1)| == 1
      && l.StoreSlot(0, 0) == 2 && l.StoreSlot(0, 1) == 3 && l.StoreSlot(1, 0) == 4
      && l.LoadSlot(0) == 1 && l.LoadSlot(1) == 4 && l.HasInitial(0) && !l.HasInitial(1)
  {
    var l := TwoPrompts();
    TwoPromptsChunks();
    TwoPromptsScheduled();
    SmallQuots();
    hide Launch.Readable, Launch.Chunks, Launch.StoreColumn, Launch.CacheAt, Scheduled, Quot;
    ColumnOf(l, 0, 2, 3, 0, 1);
    ColumnOf(l, 0, 2, 3, 1, 1);
    ColumnOf(l, 1, 0, 1, 0, 0);
    TableOf(l);
  }

  lemma TwoPromptsSeparated()
    ensures Separated(TwoPrompts()) && !TwoPrompts().Skipped(0) && !TwoPrompts().Skipped(1)
  {
    var l := TwoPrompts();
    TwoPromptsSlots();
    TwoPromptsChunks();
    hide Launch.Readable, Launch.Chunks, Launch.StoreSlot, Launch.LoadSlot, Launch.HasInitial;
    assert Tokens([2, 1], 2) == 3 && Tokens([1], 1) == 1;
    assert l.SeqLen(0) == 3 && l.SeqLen(1) == 1;
    assert SlotsApart(l);
    hide SlotsApart, Tokens;
  }

  /** There are separated launches whose sequences the scheduler has set up. */
  lemma SeparatedLaunchExists()
    ensures Separated(TwoPrompts()) && TwoPrompts().Readable()
    ensures Scheduled(TwoPrompts(), 0, 2, 3) && Scheduled(TwoPrompts(), 1, 0, 1)
  {
    hide *;
    TwoPromptsScheduled();
    TwoPromptsSeparated();
  }
}
