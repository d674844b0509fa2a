/** Prompts that are served by two launches beside another prompt: the runs that PromptLaunches speaks of exist
    (overlay/vllm/_xpu_ops.py, overlay/vllm/v1/core/single_type_kv_cache_manager.py). */
module ServedPrompts {
  import opened Scaling
  import opened Wrappers
  import opened SelectiveScan
  import opened SelectiveScanGrid
  import opened SelectiveScanTurns
  import opened MambaChunks
  import opened PromptLaunches

  // ---------------------------------------------------------------------------------------
  // Launches of two sequences, one token each
  // ---------------------------------------------------------------------------------------

  const ROWS := Layout(1, 2)

  /** The cache slots of a sequence: where its state is loaded from, if it is, and where it is stored. */
  datatype Use = Use(load: nat, store: nat, resumed: bool)

  /** The launch has one channel and two sequences with one new token each, which use these slots. */
  ghost predicate IsPair(l: Launch, uses: seq<Use>) {
    && l.Readable() && l.batch == 2 && l.dim == 1 && l.groups == 1 && !l.hasZ && l.queryStart == Some([0, 1, 2])
    && l.u == ROWS && l.delta == ROWS && l.b == ROWS && l.c == ROWS && l.z == ROWS
    && l.slotStride == 1 && l.channelStride == 1
    && |uses| == 2 && Uses(l, 0, uses[0]) && Uses(l, 1, uses[1])
  }

  ghost predicate Uses(l: Launch, i: nat, use: Use)
    requires l.Readable() && i < l.batch
  {
    && l.Chunks(i) == [1] && l.LoadSlot(i) == use.load && l.StoreSlot(i, 0) == use.store
    && (l.HasInitial(i) <==> use.resumed) && !l.Skipped(i)
  }

  /** The two sequences share no slot. */
  predicate UsesApart(uses: seq<Use>) {
    && |uses| == 2 && uses[0].store != uses[1].store
    && uses[0].store != uses[1].load && uses[1].store != uses[0].load
  }

  lemma TimesOne(a: nat)
    ensures Scale(a, 1) == a && Scale(0, a) == 0
  {
  }

  lemma PairBases(l: Launch, uses: seq<Use>, i: nat)
    requires IsPair(l, uses) && i < 2
    ensures BasesOf(l, i, 0) == Bases(i, i, i, i, i) && l.SeqLen(i) == 1
  {
    assert l.SeqStart(i) == i && l.SeqLen(i) == 1;
    TimesOne(i);
    TimesOne(2);
    SmallQuotient(0, 1);
    assert Quot(1, 1) == 1 by { QuotientUnique(1, 1, 1, 0); }
    hide Launch.Readable, Launch.SeqStart, Launch.SeqLen, Scale, Quot, Uses;
  }

  lemma PairSlotted(l: Launch, uses: seq<Use>, i: nat)
    requires IsPair(l, uses) && i < 2
    ensures l.Slotted(i) && Uses(l, i, uses[i])
  {
    assert Uses(l, i, uses[i]) by { assert i == 0 || i == 1; }
    hide Launch.Readable, Launch.Chunks, Launch.LoadSlot, Launch.StoreSlot, Launch.Skipped, Launch.HasInitial;
  }

  /** What instance (i, 0) of such a launch does. */
  function OneToken(i: nat, use: Use): Plan {
    Plan(0, Bases(i, i, i, i, i), false, if use.resumed then Some(use.load) else None, [1], [use.store])
  }

  lemma PairAddress(l: Launch, uses: seq<Use>, slot: nat)
    requires IsPair(l, uses)
    ensures l.StateAddress(slot, 0) == slot
  {
    TimesOne(slot);
    TimesOne(1);
    hide Scale;
  }

  lemma PairPlan(l: Launch, uses: seq<Use>, i: nat)
    requires IsPair(l, uses) && i < 2
    ensures l.Slotted(i) && PlanOf(l, i, 0) == OneToken(i, uses[i])
  {
    PairSlotted(l, uses, i);
    PairBases(l, uses, i);
    PairAddress(l, uses, uses[i].load);
    PairAddress(l, uses, uses[i].store);
    PlanParts(l, i, 0);
    hide Launch.Readable, Launch.Slotted, Launch.Skipped, Launch.Chunks, Launch.LoadSlot, Launch.StoreSlot,
         Launch.HasInitial, Launch.StateAddress, BasesOf, PlanOf;
    assert PlanOf(l, i, 0).cells == [uses[i].store];
  }

  lemma PairApart(l: Launch, uses: seq<Use>)
    requires IsPair(l, uses) && UsesApart(uses)
    ensures RoomFor(l, ROWS) && SlotsApart(l)
  {
    hide Launch.Readable, Launch.Chunks, Launch.StoreSlot, Launch.LoadSlot, Launch.HasInitial, Launch.Skipped;
    assert Uses(l, 0, uses[0]) && Uses(l, 1, uses[1]);
  }

  lemma PairSeparated(l: Launch, uses: seq<Use>)
    requires IsPair(l, uses) && UsesApart(uses)
    ensures Separated(l)
  {
    forall i: nat | i < 2
      ensures l.Slotted(i) && Uses(l, i, uses[i]) && l.SeqLen(i) == 1
    {
      PairSlotted(l, uses, i);
      PairBases(l, uses, i);
    }
    TimesOne(1);
    TimesOne(2);
    assert Tokens([1], 1) == 1;
    assert RoomFor(l, ROWS) && SlotsApart(l) by { PairApart(l, uses); }
    hide RoomFor, SlotsApart, UsesApart, Launch.Readable, Launch.Slotted, Launch.Chunks, Launch.StoreSlot,
         Launch.LoadSlot, Launch.SeqLen, Launch.HasInitial, Launch.Skipped, Scale, Tokens;
  }

  const BLANK := Token(0.0, 0.0, [], [], 0.0)

  /** Such a launch, over all its instances, on a cache of five cells. */
  ghost predicate IsRound(r: Round, uses: seq<Use>) {
    && IsPair(r.l, uses) && UsesApart(uses) && r.ids == [(0, 0), (1, 0)]
    && (forall i | 0 <= i < 2 :: uses[i].load < 5 && uses[i].store < 5)
    && r.ops == Operands([0.0, 0.0], [[], []], [[], []]) && r.was.delta == [0.0, 0.0] && |r.was.states| == 5
  }

  lemma RoundLaunched(r: Round, uses: seq<Use>)
    requires IsRound(r, uses)
    ensures r.Launched()
  {
    PairSeparated(r.l, uses);
    PairSlotted(r.l, uses, 0);
    PairSlotted(r.l, uses, 1);
    hide Separated, Launch.Readable, Launch.Slotted, Launch.Skipped, Launch.Chunks, Launch.StoreSlot, Launch.LoadSlot,
         Launch.HasInitial, UsesApart;
  }

  lemma RoundPlan(r: Round, uses: seq<Use>, i: nat)
    requires IsRound(r, uses) && i < 2
    ensures r.Launched() && |r.Plans()| == 2 && r.Plans()[i] == OneToken(i, uses[i])
  {
    RoundLaunched(r, uses);
    PairPlan(r.l, uses, i);
    hide Round.Launched, Launch.Readable, Launch.Slotted, PlanOf, Uses, UsesApart;
    assert r.ids[i] == (i, 0);
  }

  lemma OneTokenFits(r: Round, uses: seq<Use>, i: nat)
    requires i < 2 && IsRound(r, uses)
    ensures
      var p := OneToken(i, uses[i]);
      && p.Fits(r.ops, |r.was.delta|, |r.was.z|, |r.was.states|)
      && p.Lane(r.ops, r.was.delta, r.was.z, |r.was.states|) == [BLANK]
  {
    assert OneToken(i, uses[i]).Count() == 1;
    hide Plan.Count, IsPair, UsesApart;
  }

  lemma RoundFits(r: Round, uses: seq<Use>)
    requires IsRound(r, uses)
    ensures r.Launched() && AllFit(r.ops, r.Plans(), r.was)
  {
    hide Round.Launched, Round.Plans, Plan.Fits, Plan.Lane, OneToken, IsRound;
    RoundPlan(r, uses, 0);
    RoundPlan(r, uses, 1);
    OneTokenFits(r, uses, 0);
    OneTokenFits(r, uses, 1);
  }

  lemma SizesAfter(ar: Arithmetic, r: Round)
    requires r.Ran(ar)
    ensures |r.After(ar).states| == |r.was.states|
  {
    RoundLeaves(ar, r);
    hide Round.Launched, Round.Plans, Round.After, Finishes, AllFit, Alone;
  }

  lemma RoundRuns(ar: Arithmetic, idle: Round, schedule: seq<nat>)
    requires idle.Launched() && AllFit(idle.ops, idle.Plans(), idle.was) && ScheduleFor(idle.Plans(), schedule)
    requires Finishes(ar, idle.ops, idle.Plans(), schedule, idle.was)
    ensures idle.(schedule := schedule).Ran(ar)
  {
    var r := idle.(schedule := schedule);
    assert r.Launched() && r.Plans() == idle.Plans();
    hide Round.Launched, Round.Plans, Finishes, AllFit;
  }

  /** Such a launch runs on any cache of five cells. */
  lemma RoundExists(ar: Arithmetic, l: Launch, uses: seq<Use>, states: seq<Vec>) returns (r: Round)
    requires |states| == 5 && IsPair(l, uses) && UsesApart(uses)
    requires forall i | 0 <= i < 2 :: uses[i].load < 5 && uses[i].store < 5
    ensures IsRound(r, uses) && r.l == l && r.was.states == states && r.Ran(ar) && |r.After(ar).states| == 5
  {
    hide IsPair, UsesApart;
    var idle := Round(l, Operands([0.0, 0.0], [[], []], [[], []]), [(0, 0), (1, 0)], [],
                      Memory([0.0, 0.0], [], states));
    assert IsRound(idle, uses);
    RoundFits(idle, uses);
    var schedule := SomeScheduleFinishes(ar, idle.ops, idle.Plans(), idle.was);
    r := idle.(schedule := schedule);
    assert IsRound(r, uses);
    hide *;
    RoundRuns(ar, idle, schedule);
    SizesAfter(ar, r);
  }

  /** The first sequence takes one token of a prompt of blank tokens. */
  lemma RoundTakes(r: Round, uses: seq<Use>, q: Prompt, c: nat)
    requires IsRound(r, uses) && q.d == 0 && c < |q.toks| && q.toks[c] == BLANK
    requires r.l.Readable() && r.l.batch == 2 && SetUp(r.l, 0, q, c, 1)
    ensures Takes(r, 0, q, c, 1)
  {
    RoundPlan(r, uses, 0);
    OneTokenFits(r, uses, 0);
    PairPlan(r.l, uses, 0);
    hide Round.Launched, Round.Plans, SetUp, Plan.Fits, Plan.Lane, PlanOf, AreTokens, Launch.Readable, Launch.Slotted,
         UsesApart;
    assert OneToken(0, uses[0]).Count() == 1;
    LaneIs(r.l, r.ops, r.was.delta, r.was.z, |r.was.states|, 0, 0, [BLANK]);
    assert q.toks[c..c + 1] == [BLANK];
  }

  // ---------------------------------------------------------------------------------------
  // Two launches in a row
  // ---------------------------------------------------------------------------------------

  /** Two launches, the second on what the first left, of which the first sequences continue the prompt. */
  ghost predicate InARow(ar: Arithmetic, q: Prompt, c: nat, one: Round, uses: seq<Use>, two: Round, more: seq<Use>) {
    && q.d == 0 && q.cuts == [c, c + 1, c + 2] && c + 2 <= |q.toks|
    && one.Ran(ar) && two.Ran(ar) && IsRound(one, uses) && IsRound(two, more)
    && Takes(one, 0, q, c, 1) && Takes(two, 0, q, c + 1, 1)
    && two.was.states == one.After(ar).states && |two.was.states| == 5
    && more[0].resumed && more[0].load == uses[0].store
    && (uses[0].resumed ==> one.was.states[uses[0].load] == StateAfter(ar, 0, ar.zero, q.toks, c))
  }

  lemma RowStarts(ar: Arithmetic, q: Prompt, c: nat, one: Round, uses: seq<Use>, two: Round, more: seq<Use>)
    requires InARow(ar, q, c, one, uses, two, more)
    ensures FindsStart(ar, q, one, 0)
  {
    RoundPlan(one, uses, 0);
    hide Round.Launched, Round.Plans, Round.Ran, Round.After, Takes, IsPair, UsesApart, StateAfter;
  }

  lemma RowHandsOn(ar: Arithmetic, q: Prompt, c: nat, one: Round, uses: seq<Use>, two: Round, more: seq<Use>)
    requires InARow(ar, q, c, one, uses, two, more)
    ensures HandsOn(ar, one, 0, two, 0)
  {
    RoundPlan(one, uses, 0);
    RoundPlan(two, more, 0);
    hide Round.Launched, Round.Plans, Round.Ran, Round.After, Takes, IsPair, UsesApart, StateAfter;
  }

  lemma RowServes(ar: Arithmetic, q: Prompt, c: nat, one: Round, uses: seq<Use>, two: Round, more: seq<Use>)
    requires InARow(ar, q, c, one, uses, two, more)
    ensures Served(ar, q, [one, two], [0, 0])
  {
    hide *;
    RowStarts(ar, q, c, one, uses, two, more);
    RowHandsOn(ar, q, c, one, uses, two, more);
    RowIsServed(ar, q, c, one, uses, two, more);
    TwoServed(ar, q, c, one, two);
  }

  lemma RowIsServed(ar: Arithmetic, q: Prompt, c: nat, one: Round, uses: seq<Use>, two: Round, more: seq<Use>)
    requires InARow(ar, q, c, one, uses, two, more)
    ensures ServedAt(ar, q, one, 0, c, c + 1) && ServedAt(ar, q, two, 0, c + 1, c + 2) && q.cuts == [c, c + 1, c + 2]
  {
    hide Round.Ran, Round.After, Takes, IsRound, StateAfter;
  }

  lemma TwoServed(ar: Arithmetic, q: Prompt, c: nat, one: Round, two: Round)
    requires q.cuts == [c, c + 1, c + 2] && FindsStart(ar, q, one, 0) && HandsOn(ar, one, 0, two, 0)
    requires ServedAt(ar, q, one, 0, c, c + 1) && ServedAt(ar, q, two, 0, c + 1, c + 2)
    ensures Served(ar, q, [one, two], [0, 0])
  {
    hide ServedAt, FindsStart, HandsOn;
  }

  // ---------------------------------------------------------------------------------------
  // Without prefix caching
  // ---------------------------------------------------------------------------------------

  /** Two prompts in the cache slots 1 and 2. */
  function Plain(resumed: bool): Launch {
    Launch(2, 1, 1, 1, Some([0, 1, 2]), ROWS, ROWS, ROWS, ROWS, ROWS, false, 1, 1, Some([1, 2]), 0, 0,
           Some([resumed, resumed]), 0, None)
  }

  function PlainUses(resumed: bool): seq<Use> { [Use(1, 1, resumed), Use(2, 2, resumed)] }

  lemma PlainIsPair(resumed: bool)
    ensures IsPair(Plain(resumed), PlainUses(resumed)) && UsesApart(PlainUses(resumed))
  {
  }

  const TWO_TOKENS := Prompt(0, [BLANK, BLANK], 2, [0, 1, 2])

  lemma PlainSetUp(resumed: bool)
    ensures
      var l := Plain(resumed);
      l.Readable() && l.batch == 2 && SetUp(l, 0, TWO_TOKENS, if resumed then 1 else 0, 1)
  {
  }

  /** Two such launches, one after the other on any cache, serve the first prompt. */
  lemma ServedExists(ar: Arithmetic, states: seq<Vec>) returns (rounds: seq<Round>)
    requires |states| == 5
    ensures |rounds| == 2 && rounds[0].l == Plain(false) && rounds[1].l == Plain(true) && rounds[0].was.states == states
    ensures Served(ar, TWO_TOKENS, rounds, [0, 0])
  {
    hide *;
    PlainIsPair(false);
    PlainIsPair(true);
    PlainSetUp(false);
    PlainSetUp(true);
    PlainParts();
    var one := RoundExists(ar, Plain(false), PlainUses(false), states);
    var two := RoundExists(ar, Plain(true), PlainUses(true), one.After(ar).states);
    RoundTakes(one, PlainUses(false), TWO_TOKENS, 0);
    RoundTakes(two, PlainUses(true), TWO_TOKENS, 1);
    MakesRow(ar, TWO_TOKENS, 0, one, PlainUses(false), two, PlainUses(true));
    RowServes(ar, TWO_TOKENS, 0, one, PlainUses(false), two, PlainUses(true));
    rounds := [one, two];
  }

  lemma PlainParts()
    ensures PlainUses(false) == [Use(1, 1, false), Use(2, 2, false)]
    ensures PlainUses(true) == [Use(1, 1, true), Use(2, 2, true)]
    ensures var q := TWO_TOKENS; q.d == 0 && q.cuts == [0, 1, 2] && q.toks == [BLANK, BLANK] && |q.toks| == 2
  {
  }

  lemma MakesRow(ar: Arithmetic, q: Prompt, c: nat, one: Round, uses: seq<Use>, two: Round, more: seq<Use>)
    requires q.d == 0 && q.cuts == [c, c + 1, c + 2] && c + 2 <= |q.toks| && |uses| == 2 && |more| == 2
    requires one.Ran(ar) && two.Ran(ar) && IsRound(one, uses) && IsRound(two, more)
    requires Takes(one, 0, q, c, 1) && Takes(two, 0, q, c + 1, 1)
    requires two.was.states == one.After(ar).states && |two.was.states| == 5
    requires more[0].resumed && more[0].load == uses[0].store
    requires uses[0].resumed ==>
      uses[0].load < |one.was.states| && one.was.states[uses[0].load] == StateAfter(ar, 0, ar.zero, q.toks, c)
    ensures InARow(ar, q, c, one, uses, two, more)
  {
    hide Round.Ran, Round.After, Takes, IsPair, UsesApart, StateAfter;
  }

  // ---------------------------------------------------------------------------------------
  // With prefix caching: a prefix hit, a table that grows, and a block that is given away
  // ---------------------------------------------------------------------------------------

  /** Blocks of one token. The first prompt hits a prefix of two blocks; its row begins with a null block, has the hit
      in slot 1 and a new block in slot 2. The second prompt begins in slot 3. */
  const HIT :=
    Launch(2, 1, 1, 1, Some([0, 1, 2]), ROWS, ROWS, ROWS, ROWS, ROWS, false, 1, 1,
           Some([0, 1, 2, 0, 3, 0, 0, 0]), 4, 0, Some([true, false]), 1,
           Some(PrefixCache([2, 0], [2, 0], [1, 0], [0, 1, 2], [0, 1])))

  /** Then the row of the first prompt has grown by slot 4. The block of the hit was given away: the second prompt
      has slot 1 for its next block. */
  const GROWN :=
    Launch(2, 1, 1, 1, Some([0, 1, 2]), ROWS, ROWS, ROWS, ROWS, ROWS, false, 1, 1,
           Some([0, 0, 2, 4, 3, 1, 0, 0]), 4, 0, Some([true, true]), 1,
           Some(PrefixCache([3, 1], [3, 1], [2, 0], [0, 1, 2], [0, 1])))

  const HIT_USES := [Use(1, 2, true), Use(3, 3, false)]
  const GROWN_USES := [Use(2, 4, true), Use(3, 1, true)]

  const FOUR_TOKENS := Prompt(0, [BLANK, BLANK, BLANK, BLANK], 1, [2, 3, 4])

  /** A launch with rows of four blocks, cut into one chunk per sequence. */
  ghost predicate IsCached(l: Launch, slots: seq<int>, pc: PrefixCache) {
    && l.batch == 2 && l.groups == 1 && l.dim == 1 && l.queryStart == Some([0, 1, 2]) && l.blockSize == 1
    && l.cacheIndices == Some(slots) && |slots| == 8 && l.cacheStride == 4 && l.prefixCache == Some(pc)
    && pc.cuChunks == [0, 1, 2] && pc.lastChunk == [0, 1] && l.hasInitial.Some? && |l.hasInitial.value| == 2
    && |pc.blockFirst| == |pc.blockLast| == |pc.initialIdx| == 2
    && forall i | 0 <= i < 2 :: pc.initialIdx[i] < 4 && pc.blockLast[i] < 4
  }

  lemma RowsOfFour(l: Launch, i: nat, b: nat)
    requires l.cacheStride == 4 && i < 2
    ensures l.CacheAt(i, b) == 4 * i + b
  {
    ScaleOne(4);
    hide Scale;
    assert i == 0 || i == 1;
  }

  lemma CachedReadable(l: Launch, slots: seq<int>, pc: PrefixCache)
    requires IsCached(l, slots, pc)
    ensures l.Readable()
  {
    forall i: nat | i < 2
      ensures l.CacheAt(i, pc.initialIdx[i]) < 8 && l.CacheAt(i, pc.blockLast[i]) < 8
    {
      RowsOfFour(l, i, pc.initialIdx[i]);
      RowsOfFour(l, i, pc.blockLast[i]);
    }
    hide Launch.CacheAt;
  }

  lemma CachedUses(l: Launch, slots: seq<int>, pc: PrefixCache, i: nat, use: Use)
    requires IsCached(l, slots, pc) && i < 2 && l.nullBlock == 0 && use.load > 0
    requires slots[4 * i + pc.initialIdx[i]] == use.load && slots[4 * i + pc.blockLast[i]] == use.store
    requires l.hasInitial.value[i] == use.resumed
    ensures l.Readable() && Uses(l, i, use)
  {
    CachedReadable(l, slots, pc);
    RowsOfFour(l, i, pc.initialIdx[i]);
    RowsOfFour(l, i, pc.blockLast[i]);
    hide Launch.Readable, Launch.CacheAt;
    assert l.FirstChunk(pc, i) == i by { assert i == 0 || i == 1; }
    assert l.Chunks(i) == [1];
  }

  lemma CachedIsPair(l: Launch, slots: seq<int>, pc: PrefixCache, uses: seq<Use>)
    requires IsCached(l, slots, pc) && l.nullBlock == 0 && !l.hasZ && l.slotStride == 1 && l.channelStride == 1
    requires l.u == ROWS && l.delta == ROWS && l.b == ROWS && l.c == ROWS && l.z == ROWS && |uses| == 2
    requires forall i | 0 <= i < 2 ::
      && uses[i].load > 0 && l.hasInitial.value[i] == uses[i].resumed
      && slots[4 * i + pc.initialIdx[i]] == uses[i].load && slots[4 * i + pc.blockLast[i]] == uses[i].store
    ensures IsPair(l, uses)
  {
    CachedUses(l, slots, pc, 0, uses[0]);
    CachedUses(l, slots, pc, 1, uses[1]);
    hide Uses, Launch.Readable;
  }

  lemma HitIsPair()
    ensures IsPair(HIT, HIT_USES) && UsesApart(HIT_USES)
  {
    var l, slots, uses := HIT, [0, 1, 2, 0, 3, 0, 0, 0], HIT_USES;
    var pc := PrefixCache([2, 0], [2, 0], [1, 0], [0, 1, 2], [0, 1]);
    assert IsCached(l, slots, pc);
    hide IsCached, IsPair;
    CachedIsPair(l, slots, pc, uses);
  }

  lemma GrownIsPair()
    ensures IsPair(GROWN, GROWN_USES) && UsesApart(GROWN_USES)
  {
    var l, slots, uses := GROWN, [0, 0, 2, 4, 3, 1, 0, 0], GROWN_USES;
    var pc := PrefixCache([3, 1], [3, 1], [2, 0], [0, 1, 2], [0, 1]);
    assert IsCached(l, slots, pc);
    hide IsCached, IsPair;
    CachedIsPair(l, slots, pc, uses);
  }

  /** One token after c others, in blocks of one token. */
  lemma UnitBlocks(c: nat)
    ensures Pieces(c, 1, 1) == [1] && BlockFirst(c, 1) == c && BlockOfLast(c + 1, 1) == c
    ensures Quot(c, 1) == c && CeilDiv(c, 1) == c
  {
    TimesOne(c);
    QuotientUnique(c, 1, c, 0);
    BlockFirstIs(c, 1);
    TimesOne(c + 1);
    QuotientUnique(c + 1, 1, c + 1, 0);
    LastPiece(c, 1, 1);
    hide Pieces, BlockFirst, Quot, Rem, Scale;
  }

  lemma UnitScheduled(l: Launch, uses: seq<Use>, i: nat, c: nat)
    requires IsPair(l, uses) && i < 2 && l.prefixCache.Some? && l.blockSize == 1 && c > 0
    requires var pc := l.prefixCache.value; pc.blockFirst[i] == c && pc.blockLast[i] == c && pc.initialIdx[i] == c - 1
    ensures Scheduled(l, i, c, 1)
  {
    PairSlotted(l, uses, i);
    UnitBlocks(c);
    UnitBlocks(c - 1);
    hide Launch.Readable, Launch.Chunks, Pieces, BlockFirst, BlockOfLast;
  }

  lemma CachedSetUp(l: Launch, uses: seq<Use>, c: nat)
    requires (l == HIT && uses == HIT_USES && c == 2) || (l == GROWN && uses == GROWN_USES && c == 3)
    ensures l.Readable() && l.batch == 2 && SetUp(l, 0, FOUR_TOKENS, c, 1)
  {
    if l == HIT { HitIsPair(); } else { GrownIsPair(); }
    UnitScheduled(l, uses, 0, c);
    hide Launch.Readable, Launch.Chunks, Scheduled;
  }

  lemma CachedParts()
    ensures HIT_USES == [Use(1, 2, true), Use(3, 3, false)]
    ensures GROWN_USES == [Use(2, 4, true), Use(3, 1, true)]
    ensures var q := FOUR_TOKENS;
            q.d == 0 && q.size == 1 && q.cuts == [2, 3, 4] && q.toks == [BLANK, BLANK, BLANK, BLANK]
  {
  }

  /** The two launches, one after the other on any cache with the state of the hit in slot 1, serve the first prompt,
      and its new blocks stay filed, although its table grows and the hit is given away in between. */
  lemma GrowingIsServed(ar: Arithmetic, states: seq<Vec>) returns (rounds: seq<Round>)
    requires |states| == 5 && states[1] == StateAfter(ar, 0, ar.zero, FOUR_TOKENS.toks, 2)
    ensures |rounds| == 2 && rounds[0].l == HIT && rounds[1].l == GROWN && rounds[0].was.states == states
    ensures Served(ar, FOUR_TOKENS, rounds, [0, 0]) && OnOneTable(ar, FOUR_TOKENS, rounds, [0, 0], [0, 0, 2, 4], 2)
  {
    hide *;
    HitIsPair();
    GrownIsPair();
    CachedSetUp(HIT, HIT_USES, 2);
    CachedSetUp(GROWN, GROWN_USES, 3);
    CachedParts();
    var one := RoundExists(ar, HIT, HIT_USES, states);
    var two := RoundExists(ar, GROWN, GROWN_USES, one.After(ar).states);
    RoundTakes(one, HIT_USES, FOUR_TOKENS, 2);
    RoundTakes(two, GROWN_USES, FOUR_TOKENS, 3);
    MakesRow(ar, FOUR_TOKENS, 2, one, HIT_USES, two, GROWN_USES);
    RowServes(ar, FOUR_TOKENS, 2, one, HIT_USES, two, GROWN_USES);
    RowOnTable(ar, FOUR_TOKENS, 2, one, HIT_USES, two, GROWN_USES, [0, 0, 2, 4]);
    rounds := [one, two];
  }

  lemma UnitRow(r: Round, uses: seq<Use>, table: seq<nat>, first: nat, c: nat)
    requires IsRound(r, uses) && c < |table| && table[c] == uses[0].store
    requires forall b | first <= b < c :: table[b] != uses[1].store
    ensures RowOf(r, 0, table, 1, first, c)
  {
    RoundPlan(r, uses, 0);
    RoundPlan(r, uses, 1);
    UnitBlocks(c);
    hide Round.Launched, Round.Plans, IsPair, UsesApart, Quot;
  }

  lemma RowKeeps(ar: Arithmetic, q: Prompt, c: nat, one: Round, uses: seq<Use>, two: Round, more: seq<Use>,
                 table: seq<nat>, first: nat)
    requires InARow(ar, q, c, one, uses, two, more) && c + 1 <= |table| && forall b | first <= b < c + 1 :: table[b] < 5
    ensures KeepsBlocks(ar, one, two, table, first, c + 1)
  {
    hide Round.Ran, Round.After, Takes, IsRound, StateAfter;
  }

  /** From the block the first of two launches in a row begins, the prompt is on one table. */
  lemma RowOnTable(ar: Arithmetic, q: Prompt, c: nat, one: Round, uses: seq<Use>, two: Round, more: seq<Use>,
                   table: seq<nat>)
    requires InARow(ar, q, c, one, uses, two, more) && q.size == 1 && |table| == c + 2
    requires table[c] == uses[0].store < 5 && table[c + 1] == more[0].store && table[c] != table[c + 1]
    requires table[c] != more[1].store
    ensures OnOneTable(ar, q, [one, two], [0, 0], table, c)
  {
    hide *;
    UnitBlocks(c);
    UnitBlocks(c + 1);
    RowParts(ar, q, c, one, uses, two, more);
    UnitRow(one, uses, table, c, c);
    UnitRow(two, more, table, c, c + 1);
    RowKeeps(ar, q, c, one, uses, two, more, table, c);
    IsOnTable(ar, q, c, one, two, table);
  }

  lemma RowParts(ar: Arithmetic, q: Prompt, c: nat, one: Round, uses: seq<Use>, two: Round, more: seq<Use>)
    requires InARow(ar, q, c, one, uses, two, more)
    ensures q.cuts == [c, c + 1, c + 2] && c + 2 <= |q.toks| && IsRound(one, uses) && IsRound(two, more)
    ensures |uses| == |more| == 2
  {
    hide Round.Ran, Round.After, Takes, UsesApart, StateAfter;
  }

  lemma IsOnTable(ar: Arithmetic, q: Prompt, c: nat, one: Round, two: Round, table: seq<nat>)
    requires q.size == 1 && |table| == c + 2 && table[c] != table[c + 1] && Quot(c, 1) == c && Quot(c + 1, 1) == c + 1
    requires q.cuts == [c, c + 1, c + 2] && c + 2 <= |q.toks|
    requires RowOf(one, 0, table, 1, c, c) && RowOf(two, 0, table, 1, c, c + 1)
    requires KeepsBlocks(ar, one, two, table, c, c + 1)
    ensures OnOneTable(ar, q, [one, two], [0, 0], table, c)
  {
    hide RowOf, KeepsBlocks, Quot, BlockState;
  }
}
