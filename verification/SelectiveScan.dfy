/** The selective-scan kernel (overlay/vllm/_xpu_ops.py).

    One program instance scans one channel (`d`) of one sequence (`b`): it reads its tokens from
    flat memory, writes every output over the input it came from, and saves the running state into
    cache slots. The arithmetic of a step is left uninterpreted. */
module SelectiveScan {
  import opened Scaling
  import opened Wrappers

  type Val = real
  type Vec = seq<real>

  /** What the kernel computes per token: the new state, the output, and the output gated by z. */
  datatype Arithmetic = Arithmetic(
    step: (nat, Val, Val, Vec, Vec) -> Vec,   // channel, u, delta, B, state
    emit: (nat, Val, Vec, Vec) -> Val,        // channel, u, C, state
    gate: (Val, Val) -> Val,                  // output, z
    zero: Vec)

  // ---------------------------------------------------------------------------------------
  // The functional scan
  // ---------------------------------------------------------------------------------------

  datatype Token = Token(u: Val, delta: Val, b: Vec, c: Vec, z: Val)

  function StateAfter(ar: Arithmetic, d: nat, start: Vec, toks: seq<Token>, n: nat): Vec
    requires n <= |toks|
  {
    if n == 0 then start else
      ar.step(d, toks[n - 1].u, toks[n - 1].delta, toks[n - 1].b, StateAfter(ar, d, start, toks, n - 1))
  }

  function OutputAt(ar: Arithmetic, d: nat, start: Vec, toks: seq<Token>, n: nat): Val
    requires n < |toks|
  {
    ar.emit(d, toks[n].u, toks[n].c, StateAfter(ar, d, start, toks, n + 1))
  }

  function GatedAt(ar: Arithmetic, d: nat, start: Vec, toks: seq<Token>, n: nat): Val
    requires n < |toks|
  {
    ar.gate(OutputAt(ar, d, start, toks, n), toks[n].z)
  }

  /** Resuming from a saved state continues the scan: states and outputs of a suffix run that starts
      from the final state of the prefix run are those of the whole run. */
  lemma {:induction false} ResumeContinuesScan(
    ar: Arithmetic, d: nat, start: Vec, prefix: seq<Token>, suffix: seq<Token>, n: nat)
    requires n <= |suffix|
    ensures var mid := StateAfter(ar, d, start, prefix, |prefix|);
            && StateAfter(ar, d, start, prefix + suffix, |prefix| + n) == StateAfter(ar, d, mid, suffix, n)
            && (n < |suffix| ==>
                  && OutputAt(ar, d, start, prefix + suffix, |prefix| + n) == OutputAt(ar, d, mid, suffix, n)
                  && GatedAt(ar, d, start, prefix + suffix, |prefix| + n) == GatedAt(ar, d, mid, suffix, n))
    decreases n
  {
    if n == 0 {
      PrefixStates(ar, d, start, prefix, suffix, |prefix|);
    } else {
      ResumeContinuesScan(ar, d, start, prefix, suffix, n - 1);
    }
  }

  lemma {:induction false} PrefixStates(
    ar: Arithmetic, d: nat, start: Vec, prefix: seq<Token>, suffix: seq<Token>, n: nat)
    requires n <= |prefix|
    ensures StateAfter(ar, d, start, prefix + suffix, n) == StateAfter(ar, d, start, prefix, n)
    ensures n < |prefix| ==> OutputAt(ar, d, start, prefix + suffix, n) == OutputAt(ar, d, start, prefix, n)
    ensures n < |prefix| ==> GatedAt(ar, d, start, prefix + suffix, n) == GatedAt(ar, d, start, prefix, n)
    decreases n
  {
    if n > 0 {
      PrefixStates(ar, d, start, prefix, suffix, n - 1);
    }
  }

  /** States that follow the recurrence over the tokens. */
  ghost predicate Recurs(ar: Arithmetic, d: nat, toks: seq<Token>, run: seq<Vec>) {
    && |run| == |toks| + 1
    && forall k | 0 <= k < |toks| :: run[k + 1] == ar.step(d, toks[k].u, toks[k].delta, toks[k].b, run[k])
  }

  /** Any states that follow the recurrence from the start are those of the scan, and give its outputs. */
  lemma {:induction false} ScanIsRecurrence(
    ar: Arithmetic, d: nat, start: Vec, toks: seq<Token>, states: seq<Vec>, n: nat)
    requires Recurs(ar, d, toks, states) && states[0] == start && n <= |toks|
    ensures StateAfter(ar, d, start, toks, n) == states[n]
    ensures n < |toks| ==> OutputAt(ar, d, start, toks, n) == ar.emit(d, toks[n].u, toks[n].c, states[n + 1])
    ensures n < |toks| ==>
              GatedAt(ar, d, start, toks, n) == ar.gate(ar.emit(d, toks[n].u, toks[n].c, states[n + 1]), toks[n].z)
  {
    if n > 0 {
      ScanIsRecurrence(ar, d, start, toks, states, n - 1);
    }
  }

  // ---------------------------------------------------------------------------------------
  // What one program instance does
  // ---------------------------------------------------------------------------------------

  /** The tokens of the first k chunks. */
  function Tokens(chunks: seq<nat>, k: nat): nat
    requires k <= |chunks|
  {
    if k == 0 then 0 else Tokens(chunks, k - 1) + chunks[k - 1]
  }

  lemma {:induction false} TokensMonotone(chunks: seq<nat>, j: nat, k: nat)
    requires j <= k <= |chunks|
    ensures Tokens(chunks, j) <= Tokens(chunks, k)
    decreases k
  {
    if j < k {
      TokensMonotone(chunks, j, k - 1);
    }
  }

  /** Read-only operands, by address: u, and the rows of B and C. */
  datatype Operands = Operands(u: seq<Val>, b: seq<Vec>, c: seq<Vec>)

  /** Base addresses; `out` and `out_z` share those of delta and z. */
  datatype Bases = Bases(u: nat, delta: nat, b: nat, c: nat, z: nat)

  /** Everything an instance reads off the launch: its channel and addresses, the cell its initial
      state is in, the lengths of its chunks, and the cell each chunk's final state goes to. */
  datatype Plan = Plan(d: nat, at: Bases, hasZ: bool, load: Option<nat>, chunks: seq<nat>, cells: seq<nat>)
  {
    function Count(): nat { Tokens(chunks, |chunks|) }

    predicate Fits(ops: Operands, deltaSize: nat, zSize: nat, size: nat) {
      && |cells| == |chunks|
      && at.u + Count() <= |ops.u| && at.b + Count() <= |ops.b| && at.c + Count() <= |ops.c|
      && at.delta + Count() <= deltaSize && (hasZ ==> at.z + Count() <= zSize)
      && (load.Some? ==> load.value < size)
      && (forall k | 0 <= k < |cells| :: cells[k] < size)
    }

    /** The tokens the instance reads. */
    function Lane(ops: Operands, delta: seq<Val>, z: seq<Val>, size: nat): (toks: seq<Token>)
      requires Fits(ops, |delta|, |z|, size)
      ensures |toks| == Count()
    {
      seq(Count(), n requires 0 <= n < Count() =>
        Token(ops.u[at.u + n], delta[at.delta + n], ops.b[at.b + n], ops.c[at.c + n],
              if hasZ then z[at.z + n] else 0.0))
    }

    function Start(ar: Arithmetic, states: seq<Vec>): Vec
      requires load.Some? ==> load.value < |states|
    {
      if load.Some? then states[load.value] else ar.zero
    }
  }

  /** The state buffer after the first k chunks. */
  function Saved(ar: Arithmetic, p: Plan, start: Vec, toks: seq<Token>, states: seq<Vec>, k: nat): (r: seq<Vec>)
    requires |p.cells| == |p.chunks| && |toks| == p.Count() && k <= |p.chunks|
    requires forall j | 0 <= j < |p.cells| :: p.cells[j] < |states|
    ensures |r| == |states|
  {
    if k == 0 then states else
      TokensMonotone(p.chunks, k, |p.chunks|);
      Saved(ar, p, start, toks, states, k - 1)[p.cells[k - 1] := StateAfter(ar, p.d, start, toks, Tokens(p.chunks, k))]
  }

  // ---------------------------------------------------------------------------------------
  // A launch
  // ---------------------------------------------------------------------------------------

  /** Strides of a tensor whose tokens are adjacent. For packed sequences `batchStride` is the stride
      from token to token. */
  datatype Layout = Layout(batchStride: nat, rowStride: nat)

  /** Prefix caching: where each sequence finds its initial state, and how it is cut into chunks. */
  datatype PrefixCache = PrefixCache(
    blockFirst: seq<nat>,    // block_idx_first_scheduled_token
    blockLast: seq<nat>,     // block_idx_last_scheduled_token
    initialIdx: seq<nat>,    // initial_state_idx
    cuChunks: seq<nat>,      // cu_chunk_seqlen
    lastChunk: seq<int>)     // last_chunk_indices; a sequence without chunks repeats the one before it

  datatype Launch = Launch(
    batch: nat, dim: nat, seqlen: nat, groups: nat,
    queryStart: Option<seq<nat>>,
    u: Layout, delta: Layout, b: Layout, c: Layout, z: Layout,
    hasZ: bool,
    slotStride: nat, channelStride: nat,      // of ssm_states
    cacheIndices: Option<seq<int>>, cacheStride: nat, nullBlock: int,
    hasInitial: Option<seq<bool>>,
    blockSize: nat,
    prefixCache: Option<PrefixCache>)
  {
    predicate Varlen() { queryStart.Some? }

    /** The index loads of the kernel are in range. */
    ghost predicate Readable() {
      && 0 < groups <= dim
      && (queryStart.Some? ==>
            && |queryStart.value| == batch + 1
            && forall i | 0 <= i < batch :: queryStart.value[i] <= queryStart.value[i + 1])
      && (hasInitial.Some? ==> |hasInitial.value| == batch)
      && (prefixCache.None? && cacheIndices.Some? ==> batch <= |cacheIndices.value|)
      && (prefixCache.Some? ==> cacheIndices.Some? && blockSize > 0 && CacheReadable(prefixCache.value))
    }

    ghost predicate CacheReadable(pc: PrefixCache)
      requires cacheIndices.Some?
    {
      && |pc.blockFirst| == |pc.blockLast| == |pc.initialIdx| == |pc.lastChunk| == batch
      && (forall i, j | 0 <= i <= j < |pc.cuChunks| :: pc.cuChunks[i] <= pc.cuChunks[j])
      && (forall i | 0 <= i < batch :: -1 <= pc.lastChunk[i] < |pc.cuChunks| - 1)
      && (forall i | 0 <= i < batch ::
            && FirstChunk(pc, i) <= pc.lastChunk[i] + 1 && FirstChunk(pc, i) + 1 < |pc.cuChunks|
            && CacheAt(i, pc.initialIdx[i]) < |cacheIndices.value|
            && CacheAt(i, pc.blockLast[i]) < |cacheIndices.value|)
    }

    function CacheAt(i: nat, column: nat): nat { Scale(i, cacheStride) + column }

    function FirstChunk(pc: PrefixCache, i: nat): nat
      requires i < |pc.lastChunk| && (i > 0 ==> -1 <= pc.lastChunk[i - 1])
    {
      if i == 0 then 0 else pc.lastChunk[i - 1] + 1
    }

    function SeqStart(i: nat): nat
      requires Readable() && i < batch
    {
      if Varlen() then queryStart.value[i] else 0
    }

    function SeqLen(i: nat): nat
      requires Readable() && i < batch
    {
      if Varlen() then queryStart.value[i + 1] - queryStart.value[i] else seqlen
    }

    function Base(l: Layout, row: nat, i: nat): nat
      requires Readable() && i < batch
    {
      Scale(row, l.rowStride) + Scale(if Varlen() then SeqStart(i) else i, l.batchStride)
    }

    function Group(d: nat): nat
      requires Readable()
    {
      GroupOf(d, dim, groups)
    }

    /** The slot sequence i starts from, unless it is padding. */
    function LoadSlot(i: nat): int
      requires Readable() && i < batch
    {
      match prefixCache
      case Some(pc) => cacheIndices.value[CacheAt(i, pc.initialIdx[i])]
      case None => if cacheIndices.Some? then cacheIndices.value[i] else i
    }

    predicate Skipped(i: nat)
      requires Readable() && i < batch
    {
      cacheIndices.Some? && LoadSlot(i) == nullBlock
    }

    /** Tokens per chunk of sequence i. */
    function Chunks(i: nat): seq<nat>
      requires Readable() && i < batch
    {
      match prefixCache
      case None => [SeqLen(i)]
      case Some(pc) =>
        var first := FirstChunk(pc, i);
        Differences(pc.cuChunks, first, pc.lastChunk[i] + 1 - first)
    }

    /** Where the kernel believes sequence i starts, in tokens since the start of its first block. */
    function StartPosition(pc: PrefixCache, i: nat): nat
      requires Readable() && i < batch && prefixCache == Some(pc)
    {
      var chunks := Chunks(i);
      Scale(pc.blockFirst[i], blockSize) + if |chunks| > 1 && chunks[0] < blockSize then blockSize - chunks[0] else 0
    }

    /** The position of the last token of chunk k, as the kernel counts. */
    function LastPosition(pc: PrefixCache, i: nat, k: nat): nat
      requires Readable() && i < batch && prefixCache == Some(pc) && k < |Chunks(i)| - 1
    {
      TokensMonotone(Chunks(i), 1, k + 1);
      StartPosition(pc, i) + Tokens(Chunks(i), k + 1) - 1
    }

    /** The cache column the state after chunk k goes to. */
    function StoreColumn(pc: PrefixCache, i: nat, k: nat): nat
      requires Readable() && i < batch && prefixCache == Some(pc) && k < |Chunks(i)|
    {
      if k == |Chunks(i)| - 1 then pc.blockLast[i] else Quot(LastPosition(pc, i, k), blockSize)
    }

    /** The slot the state after chunk k goes to; -1 when the table has no such column. */
    function StoreSlot(i: nat, k: nat): int
      requires Readable() && i < batch && k < |Chunks(i)|
    {
      match prefixCache
      case None => LoadSlot(i)
      case Some(pc) =>
        var at: nat := CacheAt(i, StoreColumn(pc, i, k));
        if at < |cacheIndices.value| then cacheIndices.value[at] else -1
    }

    /** Every slot the kernel looks up is a slot, unless the sequence is padding. */
    ghost predicate Slotted(i: nat)
      requires Readable() && i < batch
    {
      !Skipped(i) && 0 <= LoadSlot(i) && forall k | 0 <= k < |Chunks(i)| :: 0 <= StoreSlot(i, k)
    }

    function StateAddress(slot: nat, d: nat): nat { Scale(slot, slotStride) + Scale(d, channelStride) }

    predicate HasInitial(i: nat)
      requires Readable() && i < batch
    {
      hasInitial.Some? && hasInitial.value[i]
    }
  }

  /** The lengths of n chunks, from where they start. */
  function Differences(cu: seq<nat>, first: nat, n: nat): (r: seq<nat>)
    requires first + n < |cu|
    ensures |r| == n
  {
    seq(n, k requires 0 <= k < n => if cu[first + k] <= cu[first + k + 1] then cu[first + k + 1] - cu[first + k] else 0)
  }

  function GroupOf(d: nat, dim: nat, groups: nat): nat
    requires 0 < groups <= dim
  {
    QuotPositive(dim, groups);
    Quot(d, Quot(dim, groups))
  }

  /** The plan of instance (i, d), read off the launch. */
  function PlanOf(l: Launch, i: nat, d: nat): (p: Plan)
    requires l.Readable() && i < l.batch && d < l.dim && l.Slotted(i)
    ensures |p.cells| == |p.chunks|
  {
    Plan(d, BasesOf(l, i, d), l.hasZ,
         if l.HasInitial(i) then Some(l.StateAddress(l.LoadSlot(i), d)) else None,
         l.Chunks(i),
         seq(|l.Chunks(i)|, k requires 0 <= k < |l.Chunks(i)| => l.StateAddress(l.StoreSlot(i, k), d)))
  }

  lemma PlanParts(l: Launch, i: nat, d: nat)
    requires l.Readable() && i < l.batch && d < l.dim && l.Slotted(i)
    ensures var p := PlanOf(l, i, d);
            && p.d == d && p.hasZ == l.hasZ && p.at == BasesOf(l, i, d) && p.chunks == l.Chunks(i)
            && p.load == (if l.HasInitial(i) then Some(l.StateAddress(l.LoadSlot(i), d)) else None)
            && |p.cells| == |p.chunks|
            && forall k | 0 <= k < |p.cells| :: p.cells[k] == l.StateAddress(l.StoreSlot(i, k), d)
  {
    hide Launch.Readable;
  }

  function BasesOf(l: Launch, i: nat, d: nat): Bases
    requires l.Readable() && i < l.batch
  {
    Bases(l.Base(l.u, d, i), l.Base(l.delta, d, i), l.Base(l.b, l.Group(d), i), l.Base(l.c, l.Group(d), i),
          l.Base(l.z, d, i))
  }

  // ---------------------------------------------------------------------------------------
  // What an instance reads and where it writes, stride by stride
  // ---------------------------------------------------------------------------------------

  /** Token n of sequence i in a row of a tensor is at address a: packed tensors hold the sequences one after the
      other, batched ones apart. */
  ghost predicate AddressOf(l: Launch, t: Layout, row: nat, i: nat, n: nat, a: nat)
    requires l.Readable() && i < l.batch
  {
    match l.queryStart
    case Some(q) => a == row * t.rowStride + q[i] * t.batchStride + n
    case None => a == i * t.batchStride + row * t.rowStride + n
  }

  /** Channel d reads row g of B and C. */
  ghost predicate InGroup(l: Launch, d: nat, g: nat)
    requires l.Readable()
  {
    InMultiple(d, l.dim / l.groups, g)
  }

  /** x is in the q-th stretch of that size. */
  ghost predicate InMultiple(x: nat, size: nat, q: nat) { q * size <= x < (q + 1) * size }

  /** A tensor laid out in xs holds v at token n of sequence i in a row. */
  ghost predicate HasValue<V>(l: Launch, t: Layout, row: nat, i: nat, n: nat, xs: seq<V>, v: V)
    requires l.Readable() && i < l.batch
  {
    forall a: nat | AddressOf(l, t, row, i, n, a) :: a < |xs| && v == xs[a]
  }

  /** The token is what the tensors of the launch hold for channel d at token n of sequence i. */
  ghost predicate IsToken(l: Launch, ops: Operands, delta: seq<Val>, z: seq<Val>, i: nat, d: nat, n: nat, tok: Token)
    requires l.Readable() && i < l.batch
  {
    && HasValue(l, l.u, d, i, n, ops.u, tok.u) && HasValue(l, l.delta, d, i, n, delta, tok.delta)
    && (forall g: nat | InGroup(l, d, g) ::
          HasValue(l, l.b, g, i, n, ops.b, tok.b) && HasValue(l, l.c, g, i, n, ops.c, tok.c))
    && (if l.hasZ then HasValue(l, l.z, d, i, n, z, tok.z) else tok.z == 0.0)
  }

  /** The tokens of channel d and sequence i begin with these. */
  ghost predicate AreTokens(
    l: Launch, ops: Operands, delta: seq<Val>, z: seq<Val>, i: nat, d: nat, toks: seq<Token>)
    requires l.Readable() && i < l.batch
  {
    forall n | 0 <= n < |toks| :: IsToken(l, ops, delta, z, i, d, n, toks[n])
  }

  /** A row of a tensor begins with these values. */
  ghost predicate HasValues<V>(l: Launch, t: Layout, row: nat, i: nat, xs: seq<V>, vs: seq<V>)
    requires l.Readable() && i < l.batch
  {
    forall n | 0 <= n < |vs| :: HasValue(l, t, row, i, n, xs, vs[n])
  }

  lemma ValuesAre<V>(l: Launch, t: Layout, row: nat, i: nat, xs: seq<V>, vs: seq<V>)
    requires l.Readable() && i < l.batch
    requires var at := l.Base(t, row, i); at + |vs| <= |xs| && xs[at..at + |vs|] == vs
    ensures HasValues(l, t, row, i, xs, vs)
  {
    var at := l.Base(t, row, i);
    hide Launch.Readable, Launch.Base, HasValue;
    forall n | 0 <= n < |vs|
      ensures HasValue(l, t, row, i, n, xs, vs[n])
    {
      ValueIs(l, t, row, i, n, xs, vs[n]);
      assert xs[at..at + |vs|][n] == vs[n];
    }
  }

  lemma BaseIs(l: Launch, t: Layout, row: nat, i: nat, n: nat, a: nat)
    requires l.Readable() && i < l.batch
    ensures AddressOf(l, t, row, i, n, a) <==> a == l.Base(t, row, i) + n
  {
  }

  lemma GroupIs(l: Launch, d: nat, g: nat)
    requires l.Readable()
    ensures InGroup(l, d, g) <==> g == l.Group(d)
  {
    var ratio := l.dim / l.groups;
    QuotPositive(l.dim, l.groups);
    assert Quot(l.dim, l.groups) == ratio > 0;
    InMultiples(d, ratio, g);
    hide Launch.Readable, Quot;
  }

  lemma InMultiples(d: nat, ratio: nat, g: nat)
    requires ratio > 0
    ensures InMultiple(d, ratio, g) <==> g == Quot(d, ratio)
  {
    Divide(d, ratio);
    ScaleNext(Quot(d, ratio), ratio);
    assert Scale(g, ratio) == g * ratio && Scale(g + 1, ratio) == (g + 1) * ratio;
    ScaleMonotone(g + 1, Quot(d, ratio), ratio);
    ScaleMonotone(Quot(d, ratio) + 1, g, ratio);
    hide Quot, Rem, Scale;
  }

  lemma ValueIs<V>(l: Launch, t: Layout, row: nat, i: nat, n: nat, xs: seq<V>, v: V)
    requires l.Readable() && i < l.batch
    ensures HasValue(l, t, row, i, n, xs, v) <==>
            l.Base(t, row, i) + n < |xs| && v == xs[l.Base(t, row, i) + n]
  {
    hide Launch.Readable, Launch.Base, AddressOf;
    forall a: nat ensures AddressOf(l, t, row, i, n, a) <==> a == l.Base(t, row, i) + n { BaseIs(l, t, row, i, n, a); }
    assert AddressOf(l, t, row, i, n, l.Base(t, row, i) + n);
  }

  lemma TokenIs(l: Launch, ops: Operands, delta: seq<Val>, z: seq<Val>, i: nat, d: nat, n: nat, tok: Token)
    requires l.Readable() && i < l.batch
    ensures
      var at := BasesOf(l, i, d);
      IsToken(l, ops, delta, z, i, d, n, tok) <==>
      && at.u + n < |ops.u| && tok.u == ops.u[at.u + n] && at.delta + n < |delta| && tok.delta == delta[at.delta + n]
      && at.b + n < |ops.b| && tok.b == ops.b[at.b + n] && at.c + n < |ops.c| && tok.c == ops.c[at.c + n]
      && if l.hasZ then at.z + n < |z| && tok.z == z[at.z + n] else tok.z == 0.0
  {
    var g := l.Group(d);
    hide Launch.Readable, Launch.Base, Launch.Group, HasValue, InGroup;
    ValueIs(l, l.u, d, i, n, ops.u, tok.u);
    ValueIs(l, l.delta, d, i, n, delta, tok.delta);
    ValueIs(l, l.b, g, i, n, ops.b, tok.b);
    ValueIs(l, l.c, g, i, n, ops.c, tok.c);
    ValueIs(l, l.z, d, i, n, z, tok.z);
    forall h: nat ensures InGroup(l, d, h) <==> h == g { GroupIs(l, d, h); }
  }

  /** The tokens an instance scans are those of its channel and sequence. */
  lemma LaneIsTokens(
    l: Launch, ops: Operands, delta: seq<Val>, z: seq<Val>, size: nat, i: nat, d: nat, n: nat, tok: Token)
    requires l.Readable() && i < l.batch && d < l.dim && l.Slotted(i) && PlanOf(l, i, d).Fits(ops, |delta|, |z|, size)
    requires n < PlanOf(l, i, d).Count()
    ensures IsToken(l, ops, delta, z, i, d, n, tok) <==> PlanOf(l, i, d).Lane(ops, delta, z, size)[n] == tok
  {
    var p := PlanOf(l, i, d);
    PlanParts(l, i, d);
    TokenIs(l, ops, delta, z, i, d, n, tok);
    LaneAt(p, ops, delta, z, size, n);
    hide Launch.Readable, Launch.Slotted, Plan.Fits, Plan.Lane, Plan.Count, PlanOf, BasesOf, IsToken;
  }

  lemma LaneIs(l: Launch, ops: Operands, delta: seq<Val>, z: seq<Val>, size: nat, i: nat, d: nat, toks: seq<Token>)
    requires l.Readable() && i < l.batch && d < l.dim && l.Slotted(i) && PlanOf(l, i, d).Fits(ops, |delta|, |z|, size)
    requires |toks| == PlanOf(l, i, d).Count()
    ensures AreTokens(l, ops, delta, z, i, d, toks) <==> PlanOf(l, i, d).Lane(ops, delta, z, size) == toks
  {
    var lane := PlanOf(l, i, d).Lane(ops, delta, z, size);
    hide Launch.Readable, Launch.Slotted, Plan.Fits, Plan.Lane, Plan.Count, PlanOf, IsToken;
    forall n: nat | n < |toks|
      ensures IsToken(l, ops, delta, z, i, d, n, toks[n]) <==> lane[n] == toks[n]
    {
      LaneIsTokens(l, ops, delta, z, size, i, d, n, toks[n]);
    }
  }

  lemma LaneAt(p: Plan, ops: Operands, delta: seq<Val>, z: seq<Val>, size: nat, n: nat)
    requires p.Fits(ops, |delta|, |z|, size) && n < p.Count()
    ensures p.at.u + n < |ops.u| && p.at.b + n < |ops.b| && p.at.c + n < |ops.c| && p.at.delta + n < |delta|
    ensures p.hasZ ==> p.at.z + n < |z|
    ensures p.Lane(ops, delta, z, size)[n] ==
            Token(ops.u[p.at.u + n], delta[p.at.delta + n], ops.b[p.at.b + n], ops.c[p.at.c + n],
                  if p.hasZ then z[p.at.z + n] else 0.0)
  {
    hide Plan.Count;
  }

  /** The slot sequence i loads from. */
  ghost predicate LoadsFrom(l: Launch, i: nat, slot: int)
    requires l.Readable() && i < l.batch
  {
    match l.prefixCache
    case Some(pc) =>
      var at: nat := i * l.cacheStride + pc.initialIdx[i];
      at < |l.cacheIndices.value| && slot == l.cacheIndices.value[at]
    case None => slot == if l.cacheIndices.Some? then l.cacheIndices.value[i] else i
  }

  /** A sequence is left alone exactly when the slot it would load from is the null block. */
  lemma SkipSays(l: Launch, i: nat)
    requires l.Readable() && i < l.batch
    ensures LoadsFrom(l, i, l.LoadSlot(i))
    ensures l.Skipped(i) <==> l.cacheIndices.Some? && LoadsFrom(l, i, l.nullBlock)
  {
  }

  /** The cache column the state after chunk k goes to: the last scheduled block after the last chunk, otherwise the
      block of the last position reached. */
  ghost predicate StoresIn(l: Launch, pc: PrefixCache, i: nat, chunks: seq<nat>, k: nat, column: nat)
    requires l.Readable() && i < l.batch && l.prefixCache == Some(pc) && k < |chunks|
  {
    var skipped := if |chunks| > 1 && chunks[0] < l.blockSize then l.blockSize - chunks[0] else 0;
    if k == |chunks| - 1 then column == pc.blockLast[i]
    else
      var last := pc.blockFirst[i] * l.blockSize + skipped + Tokens(chunks, k + 1) - 1;
      last >= 0 && InMultiple(last, l.blockSize, column)
  }

  /** The chunks of sequence i: the whole of it, or the differences of the cumulative lengths between its chunks. */
  ghost predicate CutInto(l: Launch, i: nat, chunks: seq<nat>)
    requires l.Readable() && i < l.batch
  {
    match l.prefixCache
    case None =>
      |chunks| == 1 && chunks[0] == (match l.queryStart case Some(q) => q[i + 1] - q[i] case None => l.seqlen)
    case Some(pc) =>
      var first := if i == 0 then 0 else pc.lastChunk[i - 1] + 1;
      && |chunks| == pc.lastChunk[i] - first + 1
      && forall k | 0 <= k < |chunks| ::
           0 <= first + k && first + k + 1 < |pc.cuChunks|
           && pc.cuChunks[first + k] + chunks[k] == pc.cuChunks[first + k + 1]
  }

  lemma LoadIs(l: Launch, i: nat, slot: int)
    requires l.Readable() && i < l.batch
    ensures LoadsFrom(l, i, slot) <==> slot == l.LoadSlot(i)
  {
  }

  lemma ChunksAre(l: Launch, i: nat)
    requires l.Readable() && i < l.batch
    ensures CutInto(l, i, l.Chunks(i))
  {
  }

  lemma PositionIs(l: Launch, pc: PrefixCache, i: nat, k: nat)
    requires l.Readable() && i < l.batch && l.prefixCache == Some(pc) && k < |l.Chunks(i)| - 1
    ensures l.blockSize > 0 && l.StoreColumn(pc, i, k) == Quot(l.LastPosition(pc, i, k), l.blockSize)
    ensures
      var chunks := l.Chunks(i);
      var skipped := if |chunks| > 1 && chunks[0] < l.blockSize then l.blockSize - chunks[0] else 0;
      l.LastPosition(pc, i, k) == pc.blockFirst[i] * l.blockSize + skipped + Tokens(chunks, k + 1) - 1
  {
    hide Launch.Chunks, Tokens, Quot;
  }

  lemma ColumnIs(l: Launch, pc: PrefixCache, i: nat, k: nat)
    requires l.Readable() && i < l.batch && l.prefixCache == Some(pc) && k < |l.Chunks(i)|
    ensures StoresIn(l, pc, i, l.Chunks(i), k, l.StoreColumn(pc, i, k))
  {
    if k < |l.Chunks(i)| - 1 {
      hide Launch.Readable, Launch.Chunks, Launch.LastPosition, Launch.StoreColumn, Tokens, Quot, InMultiple;
      PositionIs(l, pc, i, k);
      var last := l.LastPosition(pc, i, k);
      InMultiples(last, l.blockSize, Quot(last, l.blockSize));
    } else {
      hide Launch.Chunks, Launch.LastPosition, Tokens, Quot;
    }
  }

  /** What a plan says, read off the launch: the state is loaded if the flag of the sequence says so, and cell and
      slot follow the strides. */
  lemma PlanSays(l: Launch, i: nat, d: nat)
    requires l.Readable() && i < l.batch && d < l.dim && l.Slotted(i)
    ensures var p := PlanOf(l, i, d);
            && p.d == d && p.hasZ == l.hasZ && CutInto(l, i, p.chunks) && |p.cells| == |p.chunks|
            && (p.load.Some? <==> l.hasInitial.Some? && l.hasInitial.value[i])
            && (forall slot: nat | p.load.Some? && LoadsFrom(l, i, slot) ::
                  p.load.value == slot * l.slotStride + d * l.channelStride)
            && (forall k, slot: nat | 0 <= k < |p.cells| && l.prefixCache.None? && LoadsFrom(l, i, slot) ::
                  p.cells[k] == slot * l.slotStride + d * l.channelStride)
    ensures l.prefixCache.Some? ==> forall k: nat | k < |PlanOf(l, i, d).cells| :: StoresBlock(l, i, d, k)
  {
    PlanParts(l, i, d);
    ChunksAre(l, i);
    var p := PlanOf(l, i, d);
    forall slot ensures LoadsFrom(l, i, slot) <==> slot == l.LoadSlot(i) { LoadIs(l, i, slot); }
    assert l.prefixCache.None? ==> forall k | 0 <= k < |p.cells| :: l.StoreSlot(i, k) == l.LoadSlot(i);
    hide Launch.Readable, Launch.Chunks, Launch.StoreSlot, Launch.LoadSlot, LoadsFrom, CutInto, PlanOf;
    if l.prefixCache.Some? {
      forall k: nat | k < |p.cells| ensures StoresBlock(l, i, d, k) { BlockIsStored(l, i, d, k); }
    }
  }

  /** The cell of channel d in the slot that the row of sequence i has in a column. */
  ghost predicate IsCellAt(l: Launch, i: nat, d: nat, column: nat, cell: nat)
    requires l.cacheIndices.Some?
  {
    var at: nat := i * l.cacheStride + column;
    && at < |l.cacheIndices.value| && l.cacheIndices.value[at] >= 0
    && cell == l.cacheIndices.value[at] * l.slotStride + d * l.channelStride
  }

  /** The state after chunk k goes to the slot in its column of the row of the sequence. */
  ghost predicate StoresBlock(l: Launch, i: nat, d: nat, k: nat)
    requires l.Readable() && i < l.batch && d < l.dim && l.Slotted(i) && l.prefixCache.Some?
    requires k < |PlanOf(l, i, d).cells|
  {
    var p := PlanOf(l, i, d);
    exists column: nat ::
      StoresIn(l, l.prefixCache.value, i, p.chunks, k, column) && IsCellAt(l, i, d, column, p.cells[k])
  }

  lemma BlockIsStored(l: Launch, i: nat, d: nat, k: nat)
    requires l.Readable() && i < l.batch && d < l.dim && l.Slotted(i) && l.prefixCache.Some?
    requires k < |PlanOf(l, i, d).cells|
    ensures StoresBlock(l, i, d, k)
  {
    PlanParts(l, i, d);
    var pc := l.prefixCache.value;
    assert 0 <= l.StoreSlot(i, k);
    ColumnIs(l, pc, i, k);
    var column := l.StoreColumn(pc, i, k);
    assert i * l.cacheStride + column == l.CacheAt(i, column);
    hide Launch.Readable, Launch.Chunks, Launch.StoreColumn, Launch.CacheAt, StoresIn, PlanOf;
    assert IsCellAt(l, i, d, column, PlanOf(l, i, d).cells[k]);
  }

  // ---------------------------------------------------------------------------------------
  // The kernel
  // ---------------------------------------------------------------------------------------

  function Outputs(ar: Arithmetic, d: nat, start: Vec, toks: seq<Token>): seq<Val> {
    seq(|toks|, n requires 0 <= n < |toks| => OutputAt(ar, d, start, toks, n))
  }

  function GatedOutputs(ar: Arithmetic, d: nat, start: Vec, toks: seq<Token>): seq<Val> {
    seq(|toks|, n requires 0 <= n < |toks| => GatedAt(ar, d, start, toks, n))
  }

  /** The first n cells from `base` hold the first n of `outs`; the others still hold what they held. */
  ghost predicate Replaced(now: seq<Val>, was: seq<Val>, base: nat, outs: seq<Val>, n: nat) {
    && |now| == |was| && n <= |outs| && base + |outs| <= |was|
    && (forall a | 0 <= a < |was| :: now[a] == if base <= a < base + n then outs[a - base] else was[a])
  }

  /** The first n tokens of an instance have been replaced by their outputs, in the buffer of delta and,
      gated, in that of z. */
  ghost predicate Progress(ar: Arithmetic, d: nat, at: Bases, hasZ: bool, start: Vec, toks: seq<Token>,
                           delta: seq<Val>, wasDelta: seq<Val>, z: seq<Val>, wasZ: seq<Val>, n: nat)
  {
    && Replaced(delta, wasDelta, at.delta, Outputs(ar, d, start, toks), n)
    && (if hasZ then Replaced(z, wasZ, at.z, GatedOutputs(ar, d, start, toks), n) else z == wasZ)
  }

  /** The next cell still holds its input, and may be replaced. */
  lemma ReplaceNext(now: seq<Val>, was: seq<Val>, base: nat, outs: seq<Val>, n: nat)
    requires Replaced(now, was, base, outs, n) && n < |outs|
    ensures |now| == |was| && base + n < |now| && now[base + n] == was[base + n]
    ensures Replaced(now[base + n := outs[n]], was, base, outs, n + 1)
  {
  }

  /** toks are the tokens found at `at`. */
  ghost predicate Holds(ops: Operands, at: Bases, hasZ: bool, delta: seq<Val>, z: seq<Val>, toks: seq<Token>) {
    && at.u + |toks| <= |ops.u| && at.b + |toks| <= |ops.b| && at.c + |toks| <= |ops.c|
    && at.delta + |toks| <= |delta| && (hasZ ==> at.z + |toks| <= |z|)
    && (forall n | 0 <= n < |toks| ::
          && toks[n].u == ops.u[at.u + n] && toks[n].b == ops.b[at.b + n] && toks[n].c == ops.c[at.c + n]
          && toks[n].delta == delta[at.delta + n] && (hasZ ==> toks[n].z == z[at.z + n]))
  }

  /** The token loop of one chunk: tokens `from` to `from + count` of the instance. */
  method ScanChunk(ar: Arithmetic, ops: Operands, at: Bases, hasZ: bool, d: nat, from: nat, count: nat, before: Vec,
                   delta: array<Val>, z: array<Val>, out: array<Val>, outZ: array<Val>,
                   ghost start: Vec, ghost toks: seq<Token>, ghost wasDelta: seq<Val>, ghost wasZ: seq<Val>)
    returns (state: Vec)
    requires out == delta && outZ == z && delta != z
    requires Holds(ops, at, hasZ, wasDelta, wasZ, toks)
    requires from + count <= |toks| && before == StateAfter(ar, d, start, toks, from)
    requires Progress(ar, d, at, hasZ, start, toks, delta[..], wasDelta, z[..], wasZ, from)
    modifies out, outZ
    ensures state == StateAfter(ar, d, start, toks, from + count)
    ensures Progress(ar, d, at, hasZ, start, toks, delta[..], wasDelta, z[..], wasZ, from + count)
  {
    state := before;
    ghost var outs, gated := Outputs(ar, d, start, toks), GatedOutputs(ar, d, start, toks);
    hide Replaced;
    for local := 0 to count
      invariant state == StateAfter(ar, d, start, toks, from + local)
      invariant Replaced(delta[..], wasDelta, at.delta, outs, from + local)
      invariant if hasZ then Replaced(z[..], wasZ, at.z, gated, from + local) else z[..] == wasZ
    {
      var pos := from + local;
      ghost var deltaNow, zNow := delta[..], z[..];
      ReplaceNext(deltaNow, wasDelta, at.delta, outs, pos);
      if hasZ { ReplaceNext(zNow, wasZ, at.z, gated, pos); }
      var uVal, deltaVal := ops.u[at.u + pos], delta[at.delta + pos];
      var bVals, cVals := ops.b[at.b + pos], ops.c[at.c + pos];
      state := ar.step(d, uVal, deltaVal, bVals, state);
      var outVal := ar.emit(d, uVal, cVals, state);
      out[at.delta + pos] := outVal;
      assert delta[..] == deltaNow[at.delta + pos := outs[pos]];
      if hasZ {
        var zVal := z[at.z + pos];
        outZ[at.z + pos] := ar.gate(outVal, zVal);
        assert z[..] == zNow[at.z + pos := gated[pos]];
      }
    }
  }

  /** The slot the initial state is loaded from; padding is skipped. */
  method ResolveSlot(l: Launch, i: nat) returns (skip: bool, slot: int)
    requires l.Readable() && i < l.batch
    ensures skip == l.Skipped(i) && slot == l.LoadSlot(i)
  {
    if l.prefixCache.Some? {
      slot := l.cacheIndices.value[l.CacheAt(i, l.prefixCache.value.initialIdx[i])];
      skip := slot == l.nullBlock;
    } else if l.cacheIndices.Some? {
      slot := l.cacheIndices.value[i];
      skip := slot == l.nullBlock;
    } else {
      slot, skip := i, false;
    }
  }

  /** Chunk boundaries, and the position the first token is taken to have. */
  method ChunkBounds(l: Launch, i: nat) returns (nChunks: nat, firstChunk: nat, position: nat)
    requires l.Readable() && i < l.batch
    ensures nChunks == |l.Chunks(i)|
    ensures l.prefixCache.Some? ==>
              && firstChunk == l.FirstChunk(l.prefixCache.value, i)
              && position == l.StartPosition(l.prefixCache.value, i)
  {
    nChunks, firstChunk, position := 1, 0, 0;
    if l.prefixCache.Some? {
      var pc := l.prefixCache.value;
      firstChunk := if i == 0 then 0 else pc.lastChunk[i - 1] + 1;
      nChunks := pc.lastChunk[i] - firstChunk + 1;
      var firstTokens := pc.cuChunks[firstChunk + 1] - pc.cuChunks[firstChunk];
      var offset := 0;
      if nChunks > 1 && firstTokens < l.blockSize {
        offset := l.blockSize - firstTokens;
      }
      position := Scale(pc.blockFirst[i], l.blockSize) + offset;
    }
  }

  method ChunkTokens(l: Launch, i: nat, firstChunk: nat, chunk: nat) returns (n: nat)
    requires l.Readable() && i < l.batch && chunk < |l.Chunks(i)|
    requires l.prefixCache.Some? ==> firstChunk == l.FirstChunk(l.prefixCache.value, i)
    ensures n == l.Chunks(i)[chunk]
  {
    if l.prefixCache.Some? {
      var pc := l.prefixCache.value;
      n := pc.cuChunks[firstChunk + chunk + 1] - pc.cuChunks[firstChunk + chunk];
    } else {
      n := l.SeqLen(i);
    }
  }

  /** Where the state after a chunk goes, given the position reached before it. */
  method StoreCell(l: Launch, i: nat, d: nat, nChunks: nat, chunk: nat, position: nat, chunkTokens: nat)
    returns (cell: nat)
    requires l.Readable() && i < l.batch && d < l.dim && l.Slotted(i) && l.prefixCache.Some?
    requires chunk < nChunks == |l.Chunks(i)| && chunkTokens == l.Chunks(i)[chunk]
    requires position == l.StartPosition(l.prefixCache.value, i) + Tokens(l.Chunks(i), chunk)
    ensures cell == PlanOf(l, i, d).cells[chunk]
  {
    var pc := l.prefixCache.value;
    var column: nat := pc.blockLast[i];
    if chunk != nChunks - 1 {
      assert position + chunkTokens - 1 == l.LastPosition(pc, i, chunk);
      column := Quot(position + chunkTokens - 1, l.blockSize);
    }
    assert column == l.StoreColumn(pc, i, chunk);
    assert 0 <= l.StoreSlot(i, chunk);
    hide Launch.Readable, Launch.StoreColumn, Launch.StartPosition, Launch.CacheAt;
    var storeSlot := l.cacheIndices.value[l.CacheAt(i, column)];
    cell := l.StateAddress(storeSlot, d);
  }

  lemma PlanFacts(l: Launch, ops: Operands, i: nat, d: nat, delta: seq<Val>, z: seq<Val>, size: nat)
    requires l.Readable() && i < l.batch && d < l.dim && l.Slotted(i) && PlanOf(l, i, d).Fits(ops, |delta|, |z|, size)
    ensures var p := PlanOf(l, i, d);
            && p.d == d && p.hasZ == l.hasZ && p.at == BasesOf(l, i, d) && p.chunks == l.Chunks(i)
            && |p.cells| == |p.chunks| && (forall k | 0 <= k < |p.cells| :: p.cells[k] < size)
            && Holds(ops, p.at, p.hasZ, delta, z, p.Lane(ops, delta, z, size))
    ensures l.prefixCache.None? ==>
              l.Chunks(i) == [l.SeqLen(i)] && PlanOf(l, i, d).cells[0] == l.StateAddress(l.LoadSlot(i), d)
  {
    hide Launch.Readable;
  }

  /** One turn of the chunk loop: the tokens of the chunk, then the checkpoint. */
  method StepChunk(l: Launch, ar: Arithmetic, ops: Operands, i: nat, d: nat, at: Bases, nChunks: nat, firstChunk: nat,
                   chunk: nat, position: nat, processed: nat, before: Vec,
                   delta: array<Val>, z: array<Val>, out: array<Val>, outZ: array<Val>, states: array<Vec>,
                   ghost p: Plan, ghost start: Vec, ghost toks: seq<Token>, ghost wasDelta: seq<Val>,
                   ghost wasZ: seq<Val>)
    returns (state: Vec, chunkTokens: nat)
    requires l.Readable() && i < l.batch && d < l.dim && l.Slotted(i)
    requires out == delta && outZ == z && delta != z
    requires p == PlanOf(l, i, d) && p.chunks == l.Chunks(i) && chunk < nChunks == |p.chunks| == |p.cells|
    requires p.cells[chunk] < states.Length
    requires l.prefixCache.Some? ==>
               && firstChunk == l.FirstChunk(l.prefixCache.value, i)
               && position == l.StartPosition(l.prefixCache.value, i) + processed
    requires processed == Tokens(p.chunks, chunk) && Tokens(p.chunks, chunk + 1) <= |toks|
    requires Holds(ops, at, l.hasZ, wasDelta, wasZ, toks) && before == StateAfter(ar, d, start, toks, processed)
    requires Progress(ar, d, at, l.hasZ, start, toks, delta[..], wasDelta, z[..], wasZ, processed)
    modifies out, outZ, states
    ensures chunkTokens == p.chunks[chunk] && processed + chunkTokens == Tokens(p.chunks, chunk + 1)
    ensures state == StateAfter(ar, d, start, toks, processed + chunkTokens)
    ensures Progress(ar, d, at, l.hasZ, start, toks, delta[..], wasDelta, z[..], wasZ, processed + chunkTokens)
    ensures states[..] == if l.prefixCache.Some? then old(states[..])[p.cells[chunk] := state] else old(states[..])
  {
    hide Launch.Readable, Launch.Slotted, Launch.Chunks, PlanOf, Progress, Holds;
    chunkTokens := ChunkTokens(l, i, firstChunk, chunk);
    state := ScanChunk(ar, ops, at, l.hasZ, d, processed, chunkTokens, before, delta, z, out, outZ,
                       start, toks, wasDelta, wasZ);
    if l.prefixCache.Some? {
      var cell := StoreCell(l, i, d, nChunks, chunk, position, chunkTokens);
      states[cell] := state;
    }
  }

  lemma SavedNext(ar: Arithmetic, p: Plan, start: Vec, toks: seq<Token>, states: seq<Vec>, k: nat)
    requires |p.cells| == |p.chunks| && |toks| == p.Count() && k < |p.chunks|
    requires forall j | 0 <= j < |p.cells| :: p.cells[j] < |states|
    ensures Tokens(p.chunks, k + 1) == Tokens(p.chunks, k) + p.chunks[k] <= |toks|
    ensures Saved(ar, p, start, toks, states, k + 1) ==
              Saved(ar, p, start, toks, states, k)
              [p.cells[k] := StateAfter(ar, p.d, start, toks, Tokens(p.chunks, k + 1))]
  {
    TokensMonotone(p.chunks, k + 1, |p.chunks|);
  }

  /** The chunk loop. */
  method RunChunks(l: Launch, ar: Arithmetic, ops: Operands, i: nat, d: nat, at: Bases, nChunks: nat, firstChunk: nat,
                   startPosition: nat, start: Vec,
                   delta: array<Val>, z: array<Val>, out: array<Val>, outZ: array<Val>, states: array<Vec>,
                   ghost p: Plan, ghost toks: seq<Token>, ghost wasDelta: seq<Val>, ghost wasZ: seq<Val>)
    returns (state: Vec)
    requires l.Readable() && i < l.batch && d < l.dim && l.Slotted(i)
    requires out == delta && outZ == z && delta != z
    requires p == PlanOf(l, i, d) && p.d == d && p.chunks == l.Chunks(i) && nChunks == |p.chunks| == |p.cells|
    requires forall k | 0 <= k < |p.cells| :: p.cells[k] < states.Length
    requires l.prefixCache.Some? ==>
               && firstChunk == l.FirstChunk(l.prefixCache.value, i)
               && startPosition == l.StartPosition(l.prefixCache.value, i)
    requires |toks| == p.Count() && Holds(ops, at, l.hasZ, wasDelta, wasZ, toks)
    requires Progress(ar, d, at, l.hasZ, start, toks, delta[..], wasDelta, z[..], wasZ, 0)
    modifies out, outZ, states
    ensures state == StateAfter(ar, d, start, toks, |toks|)
    ensures Progress(ar, d, at, l.hasZ, start, toks, delta[..], wasDelta, z[..], wasZ, |toks|)
    ensures states[..] ==
              if l.prefixCache.Some? then Saved(ar, p, start, toks, old(states[..]), nChunks) else old(states[..])
  {
    hide Launch.Readable, Launch.Chunks, Launch.Slotted, Launch.StoreSlot, Launch.StartPosition, PlanOf, Progress,
         Holds;
    ghost var wasStates := states[..];
    state := start;
    var position := startPosition;
    var processed := 0;
    for chunk := 0 to nChunks
      invariant processed == Tokens(p.chunks, chunk)
      invariant processed <= |toks| && state == StateAfter(ar, d, start, toks, processed)
      invariant Progress(ar, d, at, l.hasZ, start, toks, delta[..], wasDelta, z[..], wasZ, processed)
      invariant l.prefixCache.Some? ==> position == l.StartPosition(l.prefixCache.value, i) + processed
      invariant states[..] == if l.prefixCache.Some? then Saved(ar, p, start, toks, wasStates, chunk) else wasStates
    {
      SavedNext(ar, p, start, toks, wasStates, chunk);
      var chunkTokens;
      state, chunkTokens := StepChunk(l, ar, ops, i, d, at, nChunks, firstChunk, chunk, position, processed, state,
                                      delta, z, out, outZ, states, p, start, toks, wasDelta, wasZ);
      processed, position := processed + chunkTokens, position + chunkTokens;
    }
  }

  /** One program instance. `out` is the buffer of delta and `outZ` that of z, so every token's output
      replaces an input of the scan. */
  method ScanKernel(l: Launch, ar: Arithmetic, ops: Operands, i: nat, d: nat,
                    delta: array<Val>, z: array<Val>, out: array<Val>, outZ: array<Val>, states: array<Vec>)
    requires l.Readable() && i < l.batch && d < l.dim
    requires out == delta && outZ == z && delta != z
    requires !l.Skipped(i) ==> l.Slotted(i) && PlanOf(l, i, d).Fits(ops, delta.Length, z.Length, states.Length)
    modifies out, outZ, states
    ensures l.Skipped(i) ==> delta[..] == old(delta[..]) && z[..] == old(z[..]) && states[..] == old(states[..])
    ensures !l.Skipped(i) ==>
              var p := PlanOf(l, i, d);
              var toks := p.Lane(ops, old(delta[..]), old(z[..]), states.Length);
              var start := p.Start(ar, old(states[..]));
              && Progress(ar, d, p.at, l.hasZ, start, toks, delta[..], old(delta[..]), z[..], old(z[..]), |toks|)
              && states[..] == Saved(ar, p, start, toks, old(states[..]), |p.chunks|)
  {
    var skip, loadSlot := ResolveSlot(l, i);
    if skip { return; }
    ghost var p, wasDelta, wasZ, wasStates := PlanOf(l, i, d), delta[..], z[..], states[..];
    var state := ar.zero;
    if l.HasInitial(i) {
      state := states[l.StateAddress(loadSlot, d)];
    }
    ghost var start, toks := state, p.Lane(ops, wasDelta, wasZ, states.Length);
    var at := BasesOf(l, i, d);
    var nChunks, firstChunk, position := ChunkBounds(l, i);
    PlanFacts(l, ops, i, d, wasDelta, wasZ, states.Length);
    assert 0 <= l.LoadSlot(i) && start == p.Start(ar, wasStates);
    assert Progress(ar, d, at, l.hasZ, start, toks, delta[..], wasDelta, z[..], wasZ, 0);
    hide Launch.Readable, Launch.Chunks, Launch.Slotted, Launch.StoreSlot, Launch.StartPosition, PlanOf, BasesOf,
         Progress,
         Plan.Lane, Plan.Fits, Holds, Saved;
    state := RunChunks(l, ar, ops, i, d, at, nChunks, firstChunk, position, state, delta, z, out, outZ, states,
                       p, toks, wasDelta, wasZ);
    if l.prefixCache.None? {
      states[l.StateAddress(loadSlot, d)] := state;
    }
  }

  // ---------------------------------------------------------------------------------------
  // What an instance leaves, tensor by tensor
  // ---------------------------------------------------------------------------------------

  /** Where row d of sequence i lies in a tensor, `now` holds the values and otherwise what `was` holds. */
  ghost predicate RowHolds(l: Launch, t: Layout, d: nat, i: nat, now: seq<Val>, was: seq<Val>, values: seq<Val>)
    requires l.Readable() && i < l.batch
  {
    && |now| == |was|
    && (forall n: nat, a: nat | n < |values| && AddressOf(l, t, d, i, n, a) :: a < |now| && now[a] == values[n])
    && (forall a | 0 <= a < |now| && now[a] != was[a] :: exists n: nat :: n < |values| && AddressOf(l, t, d, i, n, a))
  }

  lemma ReplacedIsRow(l: Launch, t: Layout, d: nat, i: nat, now: seq<Val>, was: seq<Val>, values: seq<Val>)
    requires l.Readable() && i < l.batch && Replaced(now, was, l.Base(t, d, i), values, |values|)
    ensures RowHolds(l, t, d, i, now, was, values)
  {
    hide Launch.Readable, Launch.Base, AddressOf;
    forall n: nat, a: nat
      ensures AddressOf(l, t, d, i, n, a) <==> a == l.Base(t, d, i) + n
    {
      BaseIs(l, t, d, i, n, a);
    }
    forall a | 0 <= a < |now| && now[a] != was[a]
      ensures exists n: nat :: n < |values| && AddressOf(l, t, d, i, n, a)
    {
      var n: nat := a - l.Base(t, d, i);
      assert AddressOf(l, t, d, i, n, a);
    }
  }

  /** A call of the kernel, said without plan and scan: with the tokens the tensors hold for its channel and sequence,
      and the states that follow the recurrence over them, every token's output lies where its delta was, gated where
      its z was, and nothing else in the two buffers has changed. */
  lemma KernelLeaves(l: Launch, ar: Arithmetic, ops: Operands, i: nat, d: nat, toks: seq<Token>, run: seq<Vec>,
                     delta: seq<Val>, wasDelta: seq<Val>, z: seq<Val>, wasZ: seq<Val>, wasStates: seq<Vec>)
    requires l.Readable() && i < l.batch && d < l.dim && l.Slotted(i)
    requires PlanOf(l, i, d).Fits(ops, |wasDelta|, |wasZ|, |wasStates|)
    requires
      var p := PlanOf(l, i, d);
      Progress(ar, d, p.at, l.hasZ, p.Start(ar, wasStates), p.Lane(ops, wasDelta, wasZ, |wasStates|),
               delta, wasDelta, z, wasZ, p.Count())
    requires |toks| == PlanOf(l, i, d).Count() && Recurs(ar, d, toks, run)
    requires AreTokens(l, ops, wasDelta, wasZ, i, d, toks)
    requires run[0] == PlanOf(l, i, d).Start(ar, wasStates)
    ensures
      var outs := seq(|toks|, n requires 0 <= n < |toks| => ar.emit(d, toks[n].u, toks[n].c, run[n + 1]));
      && RowHolds(l, l.delta, d, i, delta, wasDelta, outs)
      && if l.hasZ then RowHolds(l, l.z, d, i, z, wasZ,
                                 seq(|toks|, n requires 0 <= n < |toks| => ar.gate(outs[n], toks[n].z)))
         else z == wasZ
  {
    var p := PlanOf(l, i, d);
    PlanParts(l, i, d);
    LaneIs(l, ops, wasDelta, wasZ, |wasStates|, i, d, toks);
    hide Plan.Lane, Plan.Fits, Plan.Count, Plan.Start, PlanOf, AreTokens, Launch.Readable, Launch.Slotted,
         Launch.Chunks,
         Replaced, RowHolds, Launch.Base;
    OutputsRecur(ar, d, run[0], toks, run);
    ReplacedIsRow(l, l.delta, d, i, delta, wasDelta, Outputs(ar, d, run[0], toks));
    if l.hasZ { ReplacedIsRow(l, l.z, d, i, z, wasZ, GatedOutputs(ar, d, run[0], toks)); }
  }

  lemma OutputsRecur(ar: Arithmetic, d: nat, start: Vec, toks: seq<Token>, run: seq<Vec>)
    requires Recurs(ar, d, toks, run) && run[0] == start
    ensures
      var outs := seq(|toks|, n requires 0 <= n < |toks| => ar.emit(d, toks[n].u, toks[n].c, run[n + 1]));
      && Outputs(ar, d, start, toks) == outs
      && GatedOutputs(ar, d, start, toks) == seq(|toks|, n requires 0 <= n < |toks| => ar.gate(outs[n], toks[n].z))
  {
    forall n | 0 <= n < |toks|
      ensures OutputAt(ar, d, start, toks, n) == ar.emit(d, toks[n].u, toks[n].c, run[n + 1])
      ensures GatedAt(ar, d, start, toks, n) == ar.gate(ar.emit(d, toks[n].u, toks[n].c, run[n + 1]), toks[n].z)
    {
      ScanIsRecurrence(ar, d, start, toks, run, n);
    }
  }
}
