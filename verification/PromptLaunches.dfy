/** Prompts over whole launches of the selective scan (overlay/vllm/_xpu_ops.py,
    overlay/vllm/v1/attention/backends/mamba_attn.py).

    A prompt is scanned in pieces, one piece a launch. Every launch runs all channels of many prompts side by side,
    in any interleaving, on one state buffer. This module proves that the pieces still make one scan. */
module PromptLaunches {
  import opened Scaling
  import opened Wrappers
  import opened SelectiveScan
  import opened SelectiveScanGrid
  import opened SelectiveScanTurns
  import opened MambaChunks

  /** One launch that ran to its end: the instances (sequence, channel), the order in which the scheduler let them
      step, and the memory it found. */
  datatype Round = Round(l: Launch, ops: Operands, ids: seq<(nat, nat)>, schedule: seq<nat>, was: Memory)
  {
    /** Different instances of a separated launch, none of them padding. */
    ghost predicate Launched() {
      && Separated(l)
      && (forall a | 0 <= a < |ids| :: IsInstance(ids[a].0, ids[a].1))
      && (forall a, b | 0 <= a < b < |ids| :: ids[a] != ids[b])
    }

    ghost predicate IsInstance(i: nat, d: nat)
      requires l.Readable()
    {
      i < l.batch && d < l.dim && !l.Skipped(i) && l.Slotted(i)
    }

    ghost function Plans(): (plans: seq<Plan>)
      requires Launched()
      ensures |plans| == |ids|
    {
      seq(|ids|, a requires 0 <= a < |ids| => PlanOf(l, ids[a].0, ids[a].1))
    }

    ghost predicate Ran(ar: Arithmetic) {
      && Launched() && AllFit(ops, Plans(), was) && ScheduleFor(Plans(), schedule)
      && Finishes(ar, ops, Plans(), schedule, was)
    }

    ghost function After(ar: Arithmetic): Memory
      requires Ran(ar)
    {
      Left(ar, ops, Plans(), schedule, was)
    }
  }

  lemma LaunchIsIndependent(r: Round)
    requires r.Launched()
    ensures Independent(r.Plans())
  {
    hide Separated, Independent;
    GridIsIndependent(r.l, r.ids, r.Plans());
  }

  // ---------------------------------------------------------------------------------------
  // A piece in a launch
  // ---------------------------------------------------------------------------------------

  /** A prompt of one channel: its tokens, how many of them make a block, and where it is cut. Without prefix caching
      there is one block that is as long as need be. */
  datatype Prompt = Prompt(d: nat, toks: seq<Token>, size: nat, cuts: seq<nat>)

  /** The scheduler set sequence i up to continue the prompt with n tokens after c computed ones. Which slots the row
      of the sequence holds is up to the scheduler. */
  ghost predicate SetUp(l: Launch, i: nat, q: Prompt, c: nat, n: nat)
    requires l.Readable() && i < l.batch
  {
    && (l.HasInitial(i) <==> c > 0)
    && if l.prefixCache.Some? then l.blockSize == q.size && Scheduled(l, i, c, n)
       else n > 0 && l.SeqLen(i) == n && c + n <= q.size
  }

  /** Instance `me` of a round scans the tokens c to c + n of the prompt: the tensors of the launch hold them for its
      channel and sequence. */
  ghost predicate Takes(r: Round, me: nat, q: Prompt, c: nat, n: nat) {
    && r.Launched() && me < |r.ids| && r.ids[me].1 == q.d && c + n <= |q.toks|
    && SetUp(r.l, r.ids[me].0, q, c, n)
    && r.Plans()[me].Fits(r.ops, |r.was.delta|, |r.was.z|, |r.was.states|)
    && AreTokens(r.l, r.ops, r.was.delta, r.was.z, r.ids[me].0, q.d, q.toks[c..c + n])
  }

  lemma TakesContinues(r: Round, me: nat, q: Prompt, c: nat, n: nat)
    requires Takes(r, me, q, c, n)
    ensures Continues(r.Plans()[me], q.d, q.size, c, n)
  {
    var l, i := r.l, r.ids[me].0;
    assert r.IsInstance(i, q.d) && r.Plans()[me] == PlanOf(l, i, q.d);
    hide Launch.Readable, Launch.Slotted, Launch.LoadSlot, Launch.HasInitial, Launch.StateAddress, Plan.Fits,
         AreTokens, Scheduled, TableCell, BlockOfLast, Quot, PlanOf, Continues;
    if l.prefixCache.Some? {
      ScheduledContinues(l, i, q.d, c, n);
    } else {
      PlainLaunchContinues(l, i, q.d, q.size, c);
    }
  }

  /** Sequence j of launch m finds the last computed token of the prompt where sequence i of launch l left it: in the
      same slot, of a state buffer that is laid out in the same way. */
  ghost predicate SameSlot(l: Launch, i: nat, m: Launch, j: nat, b: nat)
    requires l.Readable() && i < l.batch && m.Readable() && j < m.batch
  {
    && l.slotStride == m.slotStride && l.channelStride == m.channelStride
    && (l.prefixCache.Some? <==> m.prefixCache.Some?)
    && if l.prefixCache.Some? then SameAt(l, i, m, j, b) else l.LoadSlot(i) == m.LoadSlot(j)
  }

  /** Of two launches whose block tables agree in that one column the second one loads from the cell the first one
      stores its last state in. */
  lemma LoadsWhereStored(r: Round, me: nat, next: Round, you: nat, q: Prompt, c: nat, n: nat, more: nat)
    requires Takes(r, me, q, c, n) && Takes(next, you, q, c + n, more)
    requires SameSlot(r.l, r.ids[me].0, next.l, next.ids[you].0, BlockOfLast(c + n, q.size))
    ensures var p := r.Plans()[me]; |p.cells| > 0 && next.Plans()[you].load == Some(p.cells[|p.cells| - 1])
  {
    hide *;
    TakesPlan(r, me, q, c, n);
    TakesPlan(next, you, q, c + n, more);
    TakesContinues(r, me, q, c, n);
    ContinuesSome(r.Plans()[me], q.d, q.size, c, n);
    PlansHandOn(r.l, r.ids[me].0, next.l, next.ids[you].0, q, c, n, more);
  }

  lemma TakesPlan(r: Round, me: nat, q: Prompt, c: nat, n: nat)
    requires Takes(r, me, q, c, n)
    ensures r.Launched() && me < |r.ids| == |r.Plans()|
    ensures
      var l, i := r.l, r.ids[me].0;
      && l.Readable() && i < l.batch && q.d < l.dim && l.Slotted(i)
      && SetUp(l, i, q, c, n) && r.Plans()[me] == PlanOf(l, i, q.d)
  {
    assert r.IsInstance(r.ids[me].0, q.d);
    hide Separated, Launch.Readable, Launch.Slotted, SetUp, Plan.Fits, AreTokens, PlanOf;
  }

  /** So its plan reads these tokens. */
  lemma TakesLane(r: Round, me: nat, q: Prompt, c: nat, n: nat)
    requires Takes(r, me, q, c, n)
    ensures r.Plans()[me].Lane(r.ops, r.was.delta, r.was.z, |r.was.states|) == q.toks[c..c + n]
  {
    var p, i := r.Plans()[me], r.ids[me].0;
    TakesContinues(r, me, q, c, n);
    ContinuesCount(p, q.d, q.size, c, n);
    TakesPlan(r, me, q, c, n);
    hide Round.Launched, Round.Plans, SetUp, Continues, Plan.Fits, Plan.Count, Plan.Lane, AreTokens, PlanOf,
         Launch.Readable, Launch.Slotted;
    LaneIs(r.l, r.ops, r.was.delta, r.was.z, |r.was.states|, i, q.d, q.toks[c..c + n]);
  }

  lemma ContinuesSome(p: Plan, d: nat, size: nat, c: nat, n: nat)
    requires Continues(p, d, size, c, n)
    ensures size > 0 && n > 0
  {
  }

  lemma PlansHandOn(l: Launch, i: nat, m: Launch, j: nat, q: Prompt, c: nat, n: nat, more: nat)
    requires l.Readable() && i < l.batch && q.d < l.dim && l.Slotted(i) && SetUp(l, i, q, c, n)
    requires m.Readable() && j < m.batch && q.d < m.dim && m.Slotted(j) && SetUp(m, j, q, c + n, more)
    requires q.size > 0 && n > 0 && SameSlot(l, i, m, j, BlockOfLast(c + n, q.size))
    ensures
      var p := PlanOf(l, i, q.d);
      |p.cells| > 0 && PlanOf(m, j, q.d).load == Some(p.cells[|p.cells| - 1])
  {
    var p := PlanOf(l, i, q.d);
    hide Launch.Readable, Launch.Slotted, Launch.LoadSlot, Launch.HasInitial, Launch.StoreSlot, Launch.Chunks,
         Scheduled, BlockOfLast, PlanOf, SameAt;
    PlanParts(l, i, q.d);
    PlanParts(m, j, q.d);
    if l.prefixCache.Some? {
      ResumesWhereSaved(l, i, m, j, c, n, more);
    } else {
      PlainLaunchContinues(l, i, q.d, q.size, c);
    }
  }

  // ---------------------------------------------------------------------------------------
  // What a launch leaves
  // ---------------------------------------------------------------------------------------

  lemma OwnedByNone(plans: seq<Plan>, m: Memory, was: Memory, c: nat)
    requires Foreign(plans, m, was) && c < |m.states| && forall a | 0 <= a < |plans| :: c !in plans[a].cells
    ensures |m.states| == |was.states| && m.states[c] == was.states[c]
  {
    hide Plan.Count;
  }

  lemma RoundLeaves(ar: Arithmetic, r: Round)
    requires r.Ran(ar)
    ensures AllFit(r.ops, r.Plans(), r.was) && AllAlone(ar, r.ops, r.Plans(), r.After(ar), r.was)
  {
    LaunchIsIndependent(r);
    hide Round.Launched, Round.Plans, Independent, Finishes, AllAlone, AllFit;
    FinishedIsAlone(ar, r.ops, r.Plans(), r.schedule, r.was);
  }

  lemma AloneIn(ar: Arithmetic, r: Round, me: nat)
    requires r.Ran(ar) && me < |r.Plans()|
    ensures r.Plans()[me].Fits(r.ops, |r.was.delta|, |r.was.z|, |r.was.states|)
    ensures Alone(ar, r.ops, r.Plans()[me], r.After(ar), r.was)
  {
    RoundLeaves(ar, r);
    hide Round.Launched, Round.Plans, Round.After, Plan.Fits, Finishes, Alone, Foreign;
  }

  /** No instance of the launch stores in the cell. */
  ghost predicate Spares(r: Round, cell: nat)
    requires r.Launched()
  {
    forall a | 0 <= a < |r.ids| :: cell !in r.Plans()[a].cells
  }

  lemma SparedStays(ar: Arithmetic, r: Round, cell: nat)
    requires r.Ran(ar) && Spares(r, cell) && cell < |r.was.states|
    ensures |r.After(ar).states| == |r.was.states| && r.After(ar).states[cell] == r.was.states[cell]
  {
    RoundLeaves(ar, r);
    hide Round.Launched, Round.Plans, Round.After, Finishes, AllFit, Alone;
    assert |r.After(ar).states| == |r.was.states|;
    OwnedByNone(r.Plans(), r.After(ar), r.was, cell);
  }

  /** A cell of the channel of instance `me` is written by no other instance of the launch when no other sequence
      stores in its slot: the cells of other channels are different ones. */
  lemma OthersSpare(r: Round, me: nat, slot: nat, a: nat)
    requires r.Launched() && me < |r.ids| && a < |r.ids| && a != me
    requires Private(r.l, r.ids[me].0, slot)
    ensures r.l.StateAddress(slot, r.ids[me].1) !in r.Plans()[a].cells
  {
    var l, i, d, j, e := r.l, r.ids[me].0, r.ids[me].1, r.ids[a].0, r.ids[a].1;
    assert r.IsInstance(i, d) && r.IsInstance(j, e) && r.Plans()[a] == PlanOf(l, j, e);
    assert (i, d) != (j, e);
    assert l.channelStride >= 1 && Scale(l.dim, l.channelStride) <= l.slotStride;
    var p := r.Plans()[a];
    PlanParts(l, j, e);
    assert forall k | 0 <= k < |p.chunks| :: 0 <= l.StoreSlot(j, k);
    hide Separated, Launch.Readable, Launch.Skipped, Launch.Slotted, Launch.Chunks, Launch.StoreSlot,
         Launch.StateAddress, PlanOf, Round.IsInstance;
    forall k | 0 <= k < |p.cells|
      ensures p.cells[k] != l.StateAddress(slot, d)
    {
      CellsApart(l, l.StoreSlot(j, k), e, slot, d);
    }
  }

  /** No sequence but i stores in the slot. */
  ghost predicate Private(l: Launch, i: nat, slot: nat)
    requires l.Readable()
  {
    forall j, k | 0 <= j < l.batch && j != i && !l.Skipped(j) && 0 <= k < |l.Chunks(j)| :: l.StoreSlot(j, k) != slot
  }

  /** Where the tokens from..to of the prompt were, in the tensors of delta and z, memory now holds that part of its
      one scan. */
  ghost predicate ScanIn(ar: Arithmetic, q: Prompt, l: Launch, i: nat, m: Memory, from: nat, to: nat)
    requires l.Readable() && i < l.batch && from <= to <= |q.toks|
  {
    && HasValues(l, l.delta, q.d, i, m.delta, Outputs(ar, q.d, ar.zero, q.toks)[from..to])
    && (l.hasZ ==> HasValues(l, l.z, q.d, i, m.z, GatedOutputs(ar, q.d, ar.zero, q.toks)[from..to]))
  }

  lemma ScanAtRow(ar: Arithmetic, q: Prompt, l: Launch, i: nat, p: Plan, m: Memory, from: nat, to: nat)
    requires l.Readable() && i < l.batch && q.d < l.dim && l.Slotted(i) && p == PlanOf(l, i, q.d)
    requires from <= to <= |q.toks| && ScanAt(ar, q, p, m, from, to)
    ensures ScanIn(ar, q, l, i, m, from, to)
  {
    PlanParts(l, i, q.d);
    assert p.at == BasesOf(l, i, q.d);
    hide Launch.Readable, Launch.Slotted, Launch.Base, PlanOf, HasValues;
    ValuesAre(l, l.delta, q.d, i, m.delta, Outputs(ar, q.d, ar.zero, q.toks)[from..to]);
    if l.hasZ { ValuesAre(l, l.z, q.d, i, m.z, GatedOutputs(ar, q.d, ar.zero, q.toks)[from..to]); }
  }

  ghost predicate ScanAt(ar: Arithmetic, q: Prompt, p: Plan, m: Memory, from: nat, to: nat)
    requires from <= to <= |q.toks|
  {
    var n := to - from;
    && p.at.delta + n <= |m.delta|
    && m.delta[p.at.delta..p.at.delta + n] == Outputs(ar, q.d, ar.zero, q.toks)[from..to]
    && (p.hasZ ==>
          && p.at.z + n <= |m.z|
          && m.z[p.at.z..p.at.z + n] == GatedOutputs(ar, q.d, ar.zero, q.toks)[from..to])
  }

  /** What is filed depends on the cells of the plan only. */
  lemma FilesAgree(ar: Arithmetic, p: Plan, toks: seq<Token>, size: nat, c: nat, N: nat, a: seq<Vec>, b: seq<Vec>)
    requires size > 0 && N <= |toks| && Files(ar, p, toks, size, c, N, a)
    requires (forall k | 0 <= k < |p.cells| :: p.cells[k] < |b|) && forall cell | cell in p.cells :: b[cell] == a[cell]
    ensures Files(ar, p, toks, size, c, N, b)
  {
    hide StateAfter, BlockState, Quot, StandsUntil;
    forall k: nat | k < |p.cells|
      ensures FilesChunk(ar, p, toks, size, c, N, b, k)
    {
      assert FilesChunk(ar, p, toks, size, c, N, a, k) && p.cells[k] in p.cells;
    }
  }

  /** What an instance alone leaves, spelled out. */
  lemma AloneParts(ar: Arithmetic, ops: Operands, p: Plan, m: Memory, was: Memory, lane: seq<Token>)
    requires p.Fits(ops, |was.delta|, |was.z|, |was.states|) && Alone(ar, ops, p, m, was)
    requires p.Lane(ops, was.delta, was.z, |was.states|) == lane
    ensures p.Count() == |lane| && |p.cells| == |p.chunks| && (p.load.Some? ==> p.load.value < |was.states|)
    ensures forall k | 0 <= k < |p.cells| :: p.cells[k] < |was.states| && p.cells[k] < |m.states|
    ensures p.at.delta + |lane| <= |m.delta| && (p.hasZ ==> p.at.z + |lane| <= |m.z|)
    ensures m.delta[p.at.delta..p.at.delta + |lane|] == Outputs(ar, p.d, p.Start(ar, was.states), lane)
    ensures p.hasZ ==> m.z[p.at.z..p.at.z + |lane|] == GatedOutputs(ar, p.d, p.Start(ar, was.states), lane)
    ensures forall cell | cell in p.cells :: m.states[cell] == AfterPiece(ar, p, lane, was.states)[cell]
  {
    assert |p.Lane(ops, was.delta, was.z, |was.states|)| == p.Count();
    hide Plan.Lane, Plan.Count, Plan.Start, Outputs, GatedOutputs, Saved;
  }

  /** What an instance alone leaves, when it started from the state after everything before its tokens. */
  lemma AloneLeaves(ar: Arithmetic, ops: Operands, p: Plan, m: Memory, was: Memory, q: Prompt, from: nat, to: nat)
    requires from < to <= |q.toks| && Continues(p, q.d, q.size, from, to - from)
    requires StartsAfter(ar, p, q.toks, from, was.states)
    requires p.Fits(ops, |was.delta|, |was.z|, |was.states|) && Alone(ar, ops, p, m, was)
    requires p.Lane(ops, was.delta, was.z, |was.states|) == q.toks[from..to]
    ensures ScanAt(ar, q, p, m, from, to) && Files(ar, p, q.toks, q.size, from, to, m.states)
  {
    hide *;
    HasSize(p, q.d, q.size, from, to - from);
    assert q.toks[from..from + (to - from)] == q.toks[from..to];
    var lane := q.toks[from..to];
    AloneParts(ar, ops, p, m, was, lane);
    PieceContinues(ar, p, q.d, q.toks, q.size, from, to - from, was.states);
    FilesAgree(ar, p, q.toks, q.size, from, to, AfterPiece(ar, p, lane, was.states), m.states);
    IsScanAt(ar, q, p, m, from, to, Outputs(ar, q.d, p.Start(ar, was.states), lane),
             GatedOutputs(ar, q.d, p.Start(ar, was.states), lane));
  }

  lemma IsScanAt(ar: Arithmetic, q: Prompt, p: Plan, m: Memory, from: nat, to: nat, outs: seq<Val>, gated: seq<Val>)
    requires from <= to <= |q.toks| && p.at.delta + (to - from) <= |m.delta|
    requires p.hasZ ==> p.at.z + (to - from) <= |m.z|
    requires outs == Outputs(ar, q.d, ar.zero, q.toks)[from..to]
    requires gated == GatedOutputs(ar, q.d, ar.zero, q.toks)[from..to]
    requires m.delta[p.at.delta..p.at.delta + (to - from)] == outs
    requires p.hasZ ==> m.z[p.at.z..p.at.z + (to - from)] == gated
    ensures ScanAt(ar, q, p, m, from, to)
  {
    hide Outputs, GatedOutputs;
  }

  // ---------------------------------------------------------------------------------------
  // A prompt over launches
  // ---------------------------------------------------------------------------------------

  /** The prompt is scanned by one instance in each of a row of launches. The first one finds the state after the
      tokens before the first cut, of which there need be none, where it loads from. Every other one finds the state
      the launch before it left. Nothing else is asked of the memory or of the block tables between launches. */
  ghost predicate Served(ar: Arithmetic, q: Prompt, rounds: seq<Round>, seats: seq<nat>) {
    && |rounds| == |seats| == |q.cuts| - 1 && |rounds| > 0
    && (forall k | 0 <= k < |rounds| :: ServedAt(ar, q, rounds[k], seats[k], q.cuts[k], q.cuts[k + 1]))
    && FindsStart(ar, q, rounds[0], seats[0])
    && (forall k | 0 <= k < |rounds| - 1 :: HandsOn(ar, rounds[k], seats[k], rounds[k + 1], seats[k + 1]))
  }

  ghost predicate ServedAt(ar: Arithmetic, q: Prompt, r: Round, me: nat, from: nat, to: nat) {
    from < to <= |q.toks| && r.Ran(ar) && Takes(r, me, q, from, to - from)
  }

  ghost predicate FindsStart(ar: Arithmetic, q: Prompt, r: Round, me: nat) {
    && r.Launched() && me < |r.ids| && |q.cuts| > 0 && q.cuts[0] <= |q.toks|
    && var load := r.Plans()[me].load;
       load.Some? ==>
         load.value < |r.was.states| && r.was.states[load.value] == StateAfter(ar, q.d, ar.zero, q.toks, q.cuts[0])
  }

  /** The next launch finds, where it loads from, the state the launch stored last: in the same cell, or copied to
      another one. */
  ghost predicate HandsOn(ar: Arithmetic, r: Round, me: nat, next: Round, you: nat) {
    && r.Ran(ar) && next.Launched() && me < |r.ids| && you < |next.ids|
    && HandedOn(r.Plans()[me], next.Plans()[you], r.After(ar).states, next.was.states)
  }

  ghost predicate HandedOn(p: Plan, next: Plan, left: seq<Vec>, found: seq<Vec>) {
    && |p.cells| > 0 && p.cells[|p.cells| - 1] < |left|
    && next.load.Some? && next.load.value < |found| && found[next.load.value] == left[p.cells[|p.cells| - 1]]
  }

  /** The cell holds what the launch left in it when the next one begins. */
  ghost predicate Keeps(ar: Arithmetic, r: Round, next: Round, cell: nat)
    requires r.Ran(ar)
  {
    && cell < |next.was.states| && cell < |r.After(ar).states|
    && next.was.states[cell] == r.After(ar).states[cell]
  }

  /** So the state is handed on when the block tables agree in the one column of the last computed token, and its one
      cell keeps it between the launches. */
  lemma TablesHandOn(ar: Arithmetic, r: Round, me: nat, next: Round, you: nat, q: Prompt, c: nat, n: nat, more: nat)
    requires r.Ran(ar) && Takes(r, me, q, c, n) && Takes(next, you, q, c + n, more)
    requires SameSlot(r.l, r.ids[me].0, next.l, next.ids[you].0, BlockOfLast(c + n, q.size))
    requires var p := r.Plans()[me]; |p.cells| > 0 ==> Keeps(ar, r, next, p.cells[|p.cells| - 1])
    ensures HandsOn(ar, r, me, next, you)
  {
    LoadsWhereStored(r, me, next, you, q, c, n, more);
    hide Round.Launched, Round.Plans, Round.Ran, Round.After, SetUp, SameSlot, BlockOfLast, Plan.Fits, Plan.Lane;
  }

  lemma ServedParts(ar: Arithmetic, q: Prompt, r: Round, me: nat, from: nat, to: nat)
    requires ServedAt(ar, q, r, me, from, to)
    ensures r.Launched() && me < |r.Plans()| == |r.ids| && q.toks[from..from + (to - from)] == q.toks[from..to]
    ensures
      var p := r.Plans()[me];
      && Continues(p, q.d, q.size, from, to - from) && p.Count() == to - from
      && p.Fits(r.ops, |r.was.delta|, |r.was.z|, |r.was.states|)
      && p.Lane(r.ops, r.was.delta, r.was.z, |r.was.states|) == q.toks[from..to]
  {
    hide Round.Launched, Round.Plans, Round.Ran, SetUp, Continues, Plan.Fits, Plan.Lane, AreTokens;
    TakesContinues(r, me, q, from, to - from);
    TakesLane(r, me, q, from, to - from);
    ContinuesCount(r.Plans()[me], q.d, q.size, from, to - from);
  }

  lemma ContinuesCount(p: Plan, d: nat, size: nat, c: nat, n: nat)
    requires Continues(p, d, size, c, n)
    ensures p.Count() == n
  {
    PiecesCover(c, n, size);
    hide Pieces;
  }

  /** A launch that starts from the right state leaves the right results. */
  lemma LaunchLeaves(ar: Arithmetic, q: Prompt, r: Round, me: nat, from: nat, to: nat)
    requires ServedAt(ar, q, r, me, from, to)
    requires r.Launched() && me < |r.ids| && StartsAfter(ar, r.Plans()[me], q.toks, from, r.was.states)
    ensures q.size > 0 && from <= to <= |q.toks| && r.l.Readable() && r.ids[me].0 < r.l.batch
    ensures ScanIn(ar, q, r.l, r.ids[me].0, r.After(ar), from, to)
    ensures Files(ar, r.Plans()[me], q.toks, q.size, from, to, r.After(ar).states)
  {
    hide *;
    ServedAtParts(ar, q, r, me, from, to);
    ServedParts(ar, q, r, me, from, to);
    HasSize(r.Plans()[me], q.d, q.size, from, to - from);
    AloneIn(ar, r, me);
    AloneLeaves(ar, r.ops, r.Plans()[me], r.After(ar), r.was, q, from, to);
    TakesPlan(r, me, q, from, to - from);
    ScanAtRow(ar, q, r.l, r.ids[me].0, r.Plans()[me], r.After(ar), from, to);
  }

  lemma HasSize(p: Plan, d: nat, size: nat, c: nat, n: nat)
    requires Continues(p, d, size, c, n)
    ensures size > 0 && p.d == d
  {
  }

  lemma FitsCells(p: Plan, ops: Operands, deltaSize: nat, zSize: nat, size: nat)
    requires p.Fits(ops, deltaSize, zSize, size)
    ensures forall k | 0 <= k < |p.cells| :: p.cells[k] < size
  {
    hide Plan.Count;
  }

  lemma StartsFrom(ar: Arithmetic, p: Plan, d: nat, toks: seq<Token>, c: nat, found: seq<Vec>)
    requires p.d == d && c <= |toks| && forall k | 0 <= k < |p.cells| :: p.cells[k] < |found|
    requires p.load.Some? ==>
      p.load.value < |found| && found[p.load.value] == StateAfter(ar, d, ar.zero, toks, c)
    ensures StartsAfter(ar, p, toks, c, found)
  {
    hide StateAfter;
  }

  lemma FirstStarts(ar: Arithmetic, q: Prompt, r: Round, me: nat, to: nat)
    requires FindsStart(ar, q, r, me) && ServedAt(ar, q, r, me, q.cuts[0], to)
    ensures StartsAfter(ar, r.Plans()[me], q.toks, q.cuts[0], r.was.states)
  {
    hide ServedAt, Round.Launched, Round.Plans, Continues, Plan.Lane, Plan.Count, Plan.Fits, StateAfter, StartsAfter;
    ServedParts(ar, q, r, me, q.cuts[0], to);
    HasSize(r.Plans()[me], q.d, q.size, q.cuts[0], to - q.cuts[0]);
    FitsCells(r.Plans()[me], r.ops, |r.was.delta|, |r.was.z|, |r.was.states|);
    StartsFrom(ar, r.Plans()[me], q.d, q.toks, q.cuts[0], r.was.states);
  }

  /** A plan that loads the state a piece stored last starts after that piece. */
  lemma LoadsHandedOn(ar: Arithmetic, p: Plan, next: Plan, toks: seq<Token>, size: nat, from: nat, cut: nat,
                      left: seq<Vec>, found: seq<Vec>)
    requires size > 0 && cut <= |toks| && Files(ar, p, toks, size, from, cut, left) && next.d == p.d
    requires HandedOn(p, next, left, found) && forall k | 0 <= k < |next.cells| :: next.cells[k] < |found|
    ensures StartsAfter(ar, next, toks, cut, found)
  {
    hide StateAfter, BlockState, Quot;
  }

  lemma NextStarts(ar: Arithmetic, q: Prompt, r: Round, me: nat, next: Round, you: nat, from: nat, cut: nat, to: nat)
    requires HandsOn(ar, r, me, next, you) && ServedAt(ar, q, r, me, from, cut) && ServedAt(ar, q, next, you, cut, to)
    requires StartsAfter(ar, r.Plans()[me], q.toks, from, r.was.states)
    ensures StartsAfter(ar, next.Plans()[you], q.toks, cut, next.was.states)
  {
    hide ServedAt, Round.Launched, Round.Plans, Round.Ran, Round.After, Files, StartsAfter, HandedOn, Continues,
         Plan.Lane, Plan.Fits, Plan.Count, ScanIn;
    ServedParts(ar, q, r, me, from, cut);
    ServedParts(ar, q, next, you, cut, to);
    LaunchLeaves(ar, q, r, me, from, cut);
    ServedAtParts(ar, q, r, me, from, cut);
    HasSize(r.Plans()[me], q.d, q.size, from, cut - from);
    HasSize(next.Plans()[you], q.d, q.size, cut, to - cut);
    FitsCells(next.Plans()[you], next.ops, |next.was.delta|, |next.was.z|, |next.was.states|);
    hide *;
    LoadsHandedOn(ar, r.Plans()[me], next.Plans()[you], q.toks, q.size, from, cut, r.After(ar).states, next.was.states);
  }

  lemma ServedInTurn(ar: Arithmetic, q: Prompt, rounds: seq<Round>, seats: seq<nat>, k: nat)
    requires Served(ar, q, rounds, seats) && k < |rounds|
    ensures |rounds| == |seats| == |q.cuts| - 1 && ServedAt(ar, q, rounds[k], seats[k], q.cuts[k], q.cuts[k + 1])
    ensures rounds[k].Launched() && seats[k] < |rounds[k].ids|
    ensures k > 0 ==> HandsOn(ar, rounds[k - 1], seats[k - 1], rounds[k], seats[k])
    ensures FindsStart(ar, q, rounds[0], seats[0])
  {
    assert k > 0 ==> HandsOn(ar, rounds[k - 1], seats[k - 1], rounds[k - 1 + 1], seats[k - 1 + 1]);
    assert ServedAt(ar, q, rounds[k], seats[k], q.cuts[k], q.cuts[k + 1]);
    hide Round.Ran, Round.Launched, HandsOn, FindsStart, SetUp, Plan.Fits, Plan.Lane, Round.Plans;
  }

  /** Every launch finds the state after everything before its piece. */
  lemma {:induction false} LaunchStarts(ar: Arithmetic, q: Prompt, rounds: seq<Round>, seats: seq<nat>, k: nat)
    requires Served(ar, q, rounds, seats) && k < |rounds|
    ensures rounds[k].Launched() && seats[k] < |rounds[k].ids| && q.cuts[k] <= |q.toks|
    ensures StartsAfter(ar, rounds[k].Plans()[seats[k]], q.toks, q.cuts[k], rounds[k].was.states)
    decreases k
  {
    hide Served, HandsOn, FindsStart, Takes, StartsAfter, Round.Ran, Round.Launched, Round.Plans;
    ServedInTurn(ar, q, rounds, seats, k);
    if k == 0 {
      FirstStarts(ar, q, rounds[0], seats[0], q.cuts[1]);
    } else {
      LaunchStarts(ar, q, rounds, seats, k - 1);
      ServedInTurn(ar, q, rounds, seats, k - 1);
      NextStarts(ar, q, rounds[k - 1], seats[k - 1], rounds[k], seats[k], q.cuts[k - 1], q.cuts[k], q.cuts[k + 1]);
    }
  }

  /** Whatever other channels and other prompts the launches scan beside it, in whatever interleaving, and whatever
      happens to memory and to the block tables between them, but for the one state that is handed on: the launch that
      scans the tokens between two cuts leaves over its inputs that part of one scan over the whole prompt, and files
      the states of that scan. */
  lemma PromptOverLaunches(ar: Arithmetic, q: Prompt, rounds: seq<Round>, seats: seq<nat>, k: nat)
    requires Served(ar, q, rounds, seats) && k < |rounds|
    ensures rounds[k].Ran(ar) && seats[k] < |rounds[k].ids| && q.cuts[k] < q.cuts[k + 1] <= |q.toks| && q.size > 0
    ensures
      var p, m := rounds[k].Plans()[seats[k]], rounds[k].After(ar);
      && rounds[k].l.Readable() && rounds[k].ids[seats[k]].0 < rounds[k].l.batch
      && ScanIn(ar, q, rounds[k].l, rounds[k].ids[seats[k]].0, m, q.cuts[k], q.cuts[k + 1])
      && p.d == q.d && Files(ar, p, q.toks, q.size, q.cuts[k], q.cuts[k + 1], m.states)
  {
    hide *;
    ServedInTurn(ar, q, rounds, seats, k);
    LaunchStarts(ar, q, rounds, seats, k);
    LaunchLeaves(ar, q, rounds[k], seats[k], q.cuts[k], q.cuts[k + 1]);
    ServedParts(ar, q, rounds[k], seats[k], q.cuts[k], q.cuts[k + 1]);
    HasSize(rounds[k].Plans()[seats[k]], q.d, q.size, q.cuts[k], q.cuts[k + 1] - q.cuts[k]);
    ServedAtParts(ar, q, rounds[k], seats[k], q.cuts[k], q.cuts[k + 1]);
  }

  lemma ServedAtParts(ar: Arithmetic, q: Prompt, r: Round, me: nat, from: nat, to: nat)
    requires ServedAt(ar, q, r, me, from, to)
    ensures r.Ran(ar) && Takes(r, me, q, from, to - from) && from < to <= |q.toks|
  {
    hide Round.Ran, Takes;
  }

  /** Without prefix caching the cell of the sequence holds, after every launch, the state after all tokens so far. */
  lemma PromptInOneCell(ar: Arithmetic, q: Prompt, rounds: seq<Round>, seats: seq<nat>, k: nat)
    requires Served(ar, q, rounds, seats) && k < |rounds| && rounds[k].l.prefixCache.None?
    ensures rounds[k].Ran(ar) && seats[k] < |rounds[k].ids| && q.cuts[k + 1] <= |q.toks|
    ensures
      var l, i := rounds[k].l, rounds[k].ids[seats[k]].0;
      && l.Readable() && i < l.batch && 0 <= l.LoadSlot(i)
      && var cell := l.StateAddress(l.LoadSlot(i), q.d);
         cell < |rounds[k].After(ar).states|
         && rounds[k].After(ar).states[cell] == StateAfter(ar, q.d, ar.zero, q.toks, q.cuts[k + 1])
  {
    PromptOverLaunches(ar, q, rounds, seats, k);
    ServedInTurn(ar, q, rounds, seats, k);
    hide Served, Round.Ran, Round.After, ScanIn, StateAfter, BlockState;
    OneCellOf(rounds[k], seats[k], q, q.cuts[k], q.cuts[k + 1] - q.cuts[k]);
  }

  lemma OneCellOf(r: Round, me: nat, q: Prompt, c: nat, n: nat)
    requires Takes(r, me, q, c, n) && r.l.prefixCache.None?
    ensures
      var l, i := r.l, r.ids[me].0;
      && l.Readable() && i < l.batch && 0 <= l.LoadSlot(i)
      && r.Plans()[me].cells == [l.StateAddress(l.LoadSlot(i), q.d)]
  {
    var l, i := r.l, r.ids[me].0;
    assert r.IsInstance(i, q.d) && r.Plans()[me] == PlanOf(l, i, q.d);
    assert 0 <= l.LoadSlot(i);
    hide Launch.Readable, Launch.Slotted, Launch.LoadSlot, Launch.HasInitial, Launch.StateAddress, Plan.Fits,
         Plan.Lane, PlanOf, Continues;
    PlainLaunchContinues(l, i, q.d, q.size, c);
  }

  // ---------------------------------------------------------------------------------------
  // Blocks that are kept
  // ---------------------------------------------------------------------------------------

  /** Nothing writes the cell between the end of one launch and the end of the next. */
  ghost predicate Passes(ar: Arithmetic, r: Round, next: Round, cell: nat) {
    r.Ran(ar) && next.Ran(ar) && Keeps(ar, r, next, cell) && Spares(next, cell)
  }

  lemma CellPasses(ar: Arithmetic, r: Round, next: Round, cell: nat)
    requires Passes(ar, r, next, cell)
    ensures r.Ran(ar) && next.Ran(ar) && cell < |r.After(ar).states| && cell < |next.After(ar).states|
    ensures next.After(ar).states[cell] == r.After(ar).states[cell]
  {
    hide Round.Ran, Round.After, Spares;
    SparedStays(ar, next, cell);
  }

  /** What a launch files stays filed as long as nothing writes the cell; cells of other blocks may be given away. */
  lemma {:induction false} BlockStays(
    ar: Arithmetic, q: Prompt, rounds: seq<Round>, seats: seq<nat>, k: nat, j: nat, cell: nat, m: nat)
    requires Served(ar, q, rounds, seats) && k <= m < |rounds| && FiledBy(rounds[k], seats[k], j, cell)
    requires forall i | k < i <= m :: Passes(ar, rounds[i - 1], rounds[i], cell)
    ensures rounds[m].Ran(ar) && q.cuts[k + 1] <= |q.toks| && q.size > 0 && cell < |rounds[m].After(ar).states|
    ensures rounds[m].After(ar).states[cell] ==
              BlockState(ar, q.d, q.toks, q.size, Quot(q.cuts[k], q.size) + j, q.cuts[k + 1])
    decreases m
  {
    hide *;
    ServedInTurn(ar, q, rounds, seats, k);
    if m == k {
      PromptOverLaunches(ar, q, rounds, seats, k);
      FiledIn(ar, rounds[k], seats[k], q.toks, q.size, q.cuts[k], q.cuts[k + 1], rounds[k].After(ar).states, j, cell);
    } else {
      BlockStays(ar, q, rounds, seats, k, j, cell, m - 1);
      CellPasses(ar, rounds[m - 1], rounds[m], cell);
    }
  }

  lemma FiledIn(ar: Arithmetic, r: Round, me: nat, toks: seq<Token>, size: nat, c: nat, N: nat, states: seq<Vec>,
                j: nat, cell: nat)
    requires size > 0 && N <= |toks| && FiledBy(r, me, j, cell) && Files(ar, r.Plans()[me], toks, size, c, N, states)
    ensures cell < |states| && states[cell] == BlockState(ar, r.Plans()[me].d, toks, size, Quot(c, size) + j, N)
  {
    assert FilesChunk(ar, r.Plans()[me], toks, size, c, N, states, j);
    hide Round.Launched, Round.Plans, BlockState, StateAfter, Quot;
  }

  /** Chunk j of instance `me` stores in the cell, and no later chunk of it does. */
  ghost predicate FiledBy(r: Round, me: nat, j: nat, cell: nat) {
    && r.Launched() && me < |r.ids|
    && var p := r.Plans()[me]; StandsUntil(p.cells, j, |p.cells|) && p.cells[j] == cell
  }

  /** Instance `me` finds the blocks it begins or continues, from `first` on, in their cells of the table, and no
      other instance stores in the cell of a block that was complete before. */
  ghost predicate RowOf(r: Round, me: nat, table: seq<nat>, size: nat, first: nat, c: nat) {
    && r.Launched() && me < |r.ids| && size > 0
    && var q, cells := Quot(c, size), r.Plans()[me].cells;
       && q + |cells| <= |table|
       && (forall k | 0 <= k < |cells| && first <= q + k :: cells[k] == table[q + k])
       && (forall a, b | 0 <= a < |r.ids| && a != me && first <= b < q :: table[b] !in r.Plans()[a].cells)
  }

  ghost predicate DistinctFrom(table: seq<nat>, first: nat) {
    forall a, b | first <= a < b < |table| :: table[a] != table[b]
  }

  /** Complete blocks keep what they hold between two launches. */
  ghost predicate KeepsBlocks(ar: Arithmetic, r: Round, next: Round, table: seq<nat>, first: nat, n: nat) {
    r.Ran(ar) && n <= |table| && forall b | first <= b < n :: Keeps(ar, r, next, table[b])
  }

  /** All blocks of the prompt from `first` on have a cell of their own, which they get when they are begun and keep
      from then on. Before the first launch the complete ones are filed. */
  ghost predicate OnOneTable(
    ar: Arithmetic, q: Prompt, rounds: seq<Round>, seats: seq<nat>, table: seq<nat>, first: nat)
  {
    && q.size > 0 && DistinctFrom(table, first) && |rounds| == |seats| == |q.cuts| - 1 && |rounds| > 0
    && (forall k | 0 <= k < |rounds| :: RowOf(rounds[k], seats[k], table, q.size, first, q.cuts[k]))
    && (forall k | 0 <= k < |rounds| - 1 ::
          KeepsBlocks(ar, rounds[k], rounds[k + 1], table, first, Quot(q.cuts[k + 1], q.size)))
    && q.cuts[0] <= |q.toks| && Quot(q.cuts[0], q.size) <= |table|
    && (forall b | first <= b < Quot(q.cuts[0], q.size) ::
          HeldIn(rounds[0].was.states, table[b], BlockState(ar, q.d, q.toks, q.size, b, q.cuts[0])))
  }

  ghost predicate HeldIn(states: seq<Vec>, cell: nat, v: Vec) { cell < |states| && states[cell] == v }

  /** The blocks a launch gets to are those up to the one of its last token. */
  lemma RowReaches(p: Plan, d: nat, size: nat, c: nat, n: nat)
    requires Continues(p, d, size, c, n)
    ensures |p.cells| > 0 && CeilDiv(c + n, size) == Quot(c, size) + |p.cells|
  {
    hide Scale, Quot, Pieces, CeilDiv;
    PiecesCover(c, n, size);
    PieceEnds(c, n, size, |p.chunks| - 1);
  }

  lemma NewBlock(ar: Arithmetic, r: Round, me: nat, table: seq<nat>, q: Prompt, first: nat, c: nat, N: nat,
                 states: seq<Vec>, b: nat)
    requires RowOf(r, me, table, q.size, first, c) && DistinctFrom(table, first) && N <= |q.toks|
    requires Files(ar, r.Plans()[me], q.toks, q.size, c, N, states) && r.Plans()[me].d == q.d
    requires first <= b && Quot(c, q.size) <= b < Quot(c, q.size) + |r.Plans()[me].cells|
    ensures b < |table| && HeldIn(states, table[b], BlockState(ar, q.d, q.toks, q.size, b, N))
  {
    hide Round.Launched, Round.Plans, BlockState, StateAfter, Quot;
    var cells, j := r.Plans()[me].cells, b - Quot(c, q.size);
    assert StandsUntil(cells, j, |cells|);
    assert FilesChunk(ar, r.Plans()[me], q.toks, q.size, c, N, states, j);
  }

  lemma OldBlock(r: Round, me: nat, table: seq<nat>, size: nat, first: nat, c: nat, b: nat)
    requires RowOf(r, me, table, size, first, c) && DistinctFrom(table, first)
    requires first <= b < Quot(c, size)
    ensures b < |table| && Spares(r, table[b])
  {
    hide Round.Launched, Round.Plans, Quot;
    var cells := r.Plans()[me].cells;
    forall k | 0 <= k < |cells| ensures cells[k] != table[b] { assert cells[k] == table[Quot(c, size) + k]; }
  }

  /** A block that is complete does not change with more tokens. */
  lemma CompleteBlock(ar: Arithmetic, d: nat, toks: seq<Token>, size: nat, b: nat, c: nat, N: nat)
    requires size > 0 && b < Quot(c, size) && c <= N <= |toks|
    ensures BlockState(ar, d, toks, size, b, c) == BlockState(ar, d, toks, size, b, N)
    ensures b < CeilDiv(c, size)
  {
    Divide(c, size);
    ScaleMonotone(b + 1, Quot(c, size), size);
    QuotientMonotone(c, c + size - 1, size);
    hide Scale, Quot, Rem, StateAfter;
  }

  lemma InTurnOnTable(
    ar: Arithmetic, q: Prompt, rounds: seq<Round>, seats: seq<nat>, table: seq<nat>, first: nat, k: nat)
    requires OnOneTable(ar, q, rounds, seats, table, first) && k < |rounds|
    ensures |rounds| == |seats| == |q.cuts| - 1 && RowOf(rounds[k], seats[k], table, q.size, first, q.cuts[k])
    ensures q.size > 0 && DistinctFrom(table, first)
    ensures k > 0 ==> KeepsBlocks(ar, rounds[k - 1], rounds[k], table, first, Quot(q.cuts[k], q.size))
  {
    hide RowOf, KeepsBlocks, BlockState, Quot, DistinctFrom;
    assert k > 0 ==>
        KeepsBlocks(ar, rounds[k - 1], rounds[k - 1 + 1], table, first, Quot(q.cuts[k - 1 + 1], q.size));
  }

  lemma HeldBefore(ar: Arithmetic, r: Round, next: Round, table: seq<nat>, first: nat, n: nat, b: nat, v: Vec)
    requires KeepsBlocks(ar, r, next, table, first, n) && first <= b < n && HeldIn(r.After(ar).states, table[b], v)
    ensures b < |table| && HeldIn(next.was.states, table[b], v)
  {
    hide Round.Ran, Round.After;
    assert Keeps(ar, r, next, table[b]);
  }

  lemma HeldAfter(ar: Arithmetic, r: Round, cell: nat, v: Vec)
    requires r.Ran(ar) && Spares(r, cell) && HeldIn(r.was.states, cell, v)
    ensures HeldIn(r.After(ar).states, cell, v)
  {
    hide Round.Ran, Round.After, Spares;
    SparedStays(ar, r, cell);
  }

  /** Then after every launch every block begun is filed: with the state at its end, or, for the last one, the state
      after all tokens so far. */
  lemma {:induction false} BlocksStayFiled(
    ar: Arithmetic, q: Prompt, rounds: seq<Round>, seats: seq<nat>, table: seq<nat>, first: nat, k: nat, b: nat)
    requires Served(ar, q, rounds, seats) && OnOneTable(ar, q, rounds, seats, table, first) && k < |rounds|
    requires q.size > 0 && first <= b < CeilDiv(q.cuts[k + 1], q.size)
    ensures rounds[k].Ran(ar) && q.cuts[k + 1] <= |q.toks| && b < |table|
    ensures HeldIn(rounds[k].After(ar).states, table[b], BlockState(ar, q.d, q.toks, q.size, b, q.cuts[k + 1]))
    decreases k
  {
    hide *;
    PromptOverLaunches(ar, q, rounds, seats, k);
    ServedInTurn(ar, q, rounds, seats, k);
    InTurnOnTable(ar, q, rounds, seats, table, first, k);
    var c, N, p := q.cuts[k], q.cuts[k + 1], rounds[k].Plans()[seats[k]];
    ServedParts(ar, q, rounds[k], seats[k], c, N);
    RowReaches(p, q.d, q.size, c, N - c);
    if b >= Quot(c, q.size) {
      NewBlock(ar, rounds[k], seats[k], table, q, first, c, N, rounds[k].After(ar).states, b);
    } else {
      CompleteBlock(ar, q.d, q.toks, q.size, b, c, N);
      OldBlock(rounds[k], seats[k], table, q.size, first, c, b);
      var v := BlockState(ar, q.d, q.toks, q.size, b, c);
      if k > 0 {
        BlocksStayFiled(ar, q, rounds, seats, table, first, k - 1, b);
        HeldBefore(ar, rounds[k - 1], rounds[k], table, first, Quot(c, q.size), b, v);
      } else {
        FiledFirst(ar, q, rounds, seats, table, first, b);
      }
      HeldAfter(ar, rounds[k], table[b], v);
    }
  }

  lemma FiledFirst(ar: Arithmetic, q: Prompt, rounds: seq<Round>, seats: seq<nat>, table: seq<nat>, first: nat, b: nat)
    requires OnOneTable(ar, q, rounds, seats, table, first) && first <= b < Quot(q.cuts[0], q.size)
    ensures b < |table| && HeldIn(rounds[0].was.states, table[b], BlockState(ar, q.d, q.toks, q.size, b, q.cuts[0]))
  {
    hide RowOf, KeepsBlocks, BlockState, Quot, DistinctFrom, Holds;
  }
}
