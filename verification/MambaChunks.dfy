/** Chunk metadata and prefix-cache checkpoints of the selective scan
    (overlay/vllm/v1/attention/backends/mamba_attn.py, overlay/vllm/_xpu_ops.py).

    The metadata builder cuts every scheduled prompt piece at block boundaries. The kernel then saves
    one state per chunk. This module proves that the states land on the blocks they belong to, and that
    a prompt scheduled in any number of pieces is scanned as if it had been scheduled at once. */
module MambaChunks {
  import opened Common
  import opened Scaling
  import opened Wrappers
  import opened SelectiveScan

  // ---------------------------------------------------------------------------------------
  // Cutting at block boundaries
  // ---------------------------------------------------------------------------------------

  /** The chunk lengths of n new tokens after c computed ones: every cut is at a block boundary. */
  function Pieces(c: nat, n: nat, size: nat): seq<nat>
    requires size > 0
    decreases n
  {
    if n == 0 then [] else
      var len := Min(size - Rem(c, size), n);
      [len] + Pieces(c + len, n - len, size)
  }

  function ChunkLens(c: nat, n: nat, size: nat): seq<nat>
    requires size > 0
  {
    if n == 0 && Rem(c, size) != 0 then [0] else Pieces(c, n, size)
  }

  lemma TokensCons(x: nat, xs: seq<nat>, k: nat)
    requires k <= |xs|
    ensures Tokens([x] + xs, k + 1) == x + Tokens(xs, k)
  {
    if k > 0 {
      TokensCons(x, xs, k - 1);
    }
  }

  /** Chunk k ends at the end of the k-th block from the one token c is in, or where the tokens end. */
  lemma {:induction false} PieceEnds(c: nat, n: nat, size: nat, k: nat)
    requires size > 0 && k < |Pieces(c, n, size)|
    ensures c + Tokens(Pieces(c, n, size), k + 1) == Min(Scale(Quot(c, size) + k + 1, size), c + n)
    ensures k < |Pieces(c, n, size)| - 1 ==> c + Tokens(Pieces(c, n, size), k + 1) == Scale(Quot(c, size) + k + 1, size)
    ensures k == |Pieces(c, n, size)| - 1 ==>
              c + Tokens(Pieces(c, n, size), k + 1) == c + n && CeilDiv(c + n, size) == Quot(c, size) + k + 1
    decreases n
  {
    var len := Min(size - Rem(c, size), n);
    var rest := Pieces(c + len, n - len, size);
    assert Pieces(c, n, size) == [len] + rest;
    TokensCons(len, rest, k);
    assert Tokens(rest, 0) == 0;
    FirstPieceEnds(c, n, size);
    if len < n {
      assert |rest| > 0;
      hide Pieces, Tokens, Scale, Quot, Rem, CeilDiv;
      if k > 0 {
        PieceEnds(c + len, n - len, size, k - 1);
      }
    } else {
      assert rest == [];
      hide Pieces, Tokens, Scale, Quot, Rem, CeilDiv;
    }
  }

  /** The first piece goes up to the end of the block, or takes all. */
  lemma FirstPieceEnds(c: nat, n: nat, size: nat)
    requires size > 0 && n > 0
    ensures
      var len := Min(size - Rem(c, size), n);
      && 0 < len <= n && c + len == Min(Scale(Quot(c, size) + 1, size), c + n)
      && (len < n ==> c + len == Scale(Quot(c, size) + 1, size) && Quot(c + len, size) == Quot(c, size) + 1)
      && (len == n ==> CeilDiv(c + n, size) == Quot(c, size) + 1)
  {
    var len := Min(size - Rem(c, size), n);
    Divide(c, size);
    hide Scale, Quot, Rem;
    ScaleNext(Quot(c, size), size);
    if len < n {
      QuotientUnique(c + len, size, Quot(c, size) + 1, 0);
    } else {
      ScaleNext(Quot(c, size) + 1, size);
      QuotientUnique(c + n + size - 1, size, Quot(c, size) + 1, c + n - 1 - Scale(Quot(c, size), size));
    }
  }

  lemma PiecesCover(c: nat, n: nat, size: nat)
    requires size > 0
    ensures Tokens(Pieces(c, n, size), |Pieces(c, n, size)|) == n
    ensures n > 0 ==> |Pieces(c, n, size)| > 0
  {
    if n > 0 {
      PieceEnds(c, n, size, |Pieces(c, n, size)| - 1);
    }
  }

  // ---------------------------------------------------------------------------------------
  // The builder
  // ---------------------------------------------------------------------------------------

  /** The prompts of one step: tokens computed before, and where the new ones start in the batch. */
  datatype Batch = Batch(size: nat, computed: seq<nat>, starts: seq<nat>)
  {
    predicate Valid() {
      && size > 0 && |starts| == |computed| + 1
      && forall i | 0 <= i < |computed| :: starts[i] <= starts[i + 1]
    }

    function New(r: nat): nat
      requires Valid() && r < |computed|
    {
      starts[r + 1] - starts[r]
    }

    /** The chunk lengths of the first r requests, one after the other. */
    function Lens(r: nat): seq<nat>
      requires Valid() && r <= |computed|
    {
      if r == 0 then [] else Lens(r - 1) + ChunkLens(computed[r - 1], New(r - 1), size)
    }

    /** Chunk k belongs to request r. */
    predicate Owns(r: nat, k: nat)
      requires Valid()
    {
      r < |computed| && |Lens(r)| <= k < |Lens(r + 1)|
    }
  }

  function PrefixSums(lens: seq<nat>): seq<nat> { seq(|lens| + 1, k requires 0 <= k <= |lens| => Tokens(lens, k)) }

  /** `cu` and `position` describe the chunks so far: where each starts, and where the next one will. */
  ghost predicate Describes(cu: seq<nat>, position: nat, lens: seq<nat>) {
    |cu| == |lens| && position == Tokens(lens, |lens|) && forall k | 0 <= k < |cu| :: cu[k] == Tokens(lens, k)
  }

  lemma DescribesNext(cu: seq<nat>, position: nat, lens: seq<nat>, len: nat)
    requires Describes(cu, position, lens)
    ensures Describes(cu + [position], position + len, lens + [len])
  {
    forall k | 0 <= k <= |lens|
      ensures Tokens(lens + [len], k) == Tokens(lens, k)
    {
      TokensPrefix(lens, [len], k);
    }
  }

  lemma {:induction false} TokensPrefix(a: seq<nat>, b: seq<nat>, k: nat)
    requires k <= |a|
    ensures Tokens(a + b, k) == Tokens(a, k)
  {
    if k > 0 {
      TokensPrefix(a, b, k - 1);
    }
  }

  lemma AlignedPieces(n: nat, size: nat)
    requires size > 0 && n > 0
    ensures Pieces(0, n, size) == [Min(size, n)] + Pieces(0, n - Min(size, n), size)
  {
    QuotientUnique(0, size, 0, 0);
    QuotientUnique(size, size, 1, 0);
    AlignedAnywhere(Min(size, n), n - Min(size, n), size);
  }

  /** At a boundary the cut depends on the number of new tokens only. */
  lemma {:induction false} AlignedAnywhere(c: nat, n: nat, size: nat)
    requires size > 0 && (n > 0 ==> Rem(c, size) == 0)
    ensures Pieces(c, n, size) == Pieces(0, n, size)
    decreases n
  {
    if n > size {
      Divide(c, size);
      ScaleNext(Quot(c, size), size);
      QuotientUnique(c + size, size, Quot(c, size) + 1, 0);
      QuotientUnique(size, size, 1, 0);
      AlignedAnywhere(c + size, n - size, size);
      AlignedAnywhere(size, n - size, size);
    }
  }

  /** Whole blocks from a block boundary, the last one perhaps shorter. */
  method CutBlocks(size: nat, new_: nat, cuIn: seq<nat>, positionIn: nat, ghost lens: seq<nat>)
    returns (cu: seq<nat>, position: nat)
    requires size > 0 && Describes(cuIn, positionIn, lens)
    ensures Describes(cu, position, lens + Pieces(0, new_, size))
  {
    cu, position := cuIn, positionIn;
    var rest: nat := new_;
    ghost var done := lens;
    var chunks := CeilDiv(rest, size);
    hide Describes, CeilDiv;
    BlocksCover(rest, size);
    for chunk := 0 to chunks
      invariant Describes(cu, position, done)
      invariant lens + Pieces(0, new_, size) == done + Pieces(0, rest, size)
      invariant (rest == 0 <==> chunk == chunks) && CeilDiv(rest, size) == chunks - chunk
    {
      var len := Min(size, rest);
      DescribesNext(cu, position, done, len);
      AlignedPieces(rest, size);
      BlocksCover(rest, size);
      BlocksCover(rest - len, size);
      assert done + ([len] + Pieces(0, rest - len, size)) == done + [len] + Pieces(0, rest - len, size);
      cu, done := cu + [position], done + [len];
      position, rest := position + len, rest - len;
    }
    assert done + [] == done;
  }

  /** The chunks of one request: first finish the block that was begun, then cut whole blocks. */
  method CutRequest(size: nat, computed: nat, new_: nat, cuIn: seq<nat>, positionIn: nat, ghost lens: seq<nat>)
    returns (cu: seq<nat>, position: nat)
    requires size > 0 && Describes(cuIn, positionIn, lens)
    ensures Describes(cu, position, lens + ChunkLens(computed, new_, size))
  {
    cu, position := cuIn, positionIn;
    hide Scale, Quot, Rem, CeilDiv, Describes, Pieces;
    var rest: nat := new_;
    ghost var done := lens;
    if Rem(computed, size) != 0 {
      BlocksRoundUp(computed, size);
      Divide(computed, size);
      var len: nat := Scale(CeilDiv(computed, size), size) - computed;
      len := Min(len, rest);
      DescribesNext(cu, position, lens, len);
      HeadThenBlocks(computed, new_, size);
      cu, done := cu + [position], lens + [len];
      position, rest := position + len, rest - len;
    } else {
      AlignedAnywhere(computed, new_, size);
    }
    assert done + Pieces(0, rest, size) == lens + ChunkLens(computed, new_, size);
    cu, position := CutBlocks(size, rest, cu, position, done);
  }

  lemma HeadThenBlocks(c: nat, n: nat, size: nat)
    requires size > 0 && Rem(c, size) != 0
    ensures var len := Min(size - Rem(c, size), n); ChunkLens(c, n, size) == [len] + Pieces(0, n - len, size)
  {
    var len := Min(size - Rem(c, size), n);
    if n > len {
      Divide(c, size);
      ScaleNext(Quot(c, size), size);
      QuotientUnique(c + len, size, Quot(c, size) + 1, 0);
    }
    AlignedAnywhere(c + len, n - len, size);
  }

  lemma BlocksRoundUp(c: nat, size: nat)
    requires size > 0 && Rem(c, size) != 0
    ensures Scale(CeilDiv(c, size), size) == Scale(Quot(c, size), size) + size
  {
    Divide(c, size);
    ScaleNext(Quot(c, size), size);
    QuotientUnique(c + size - 1, size, Quot(c, size) + 1, Rem(c, size) - 1);
  }

  lemma BlocksCover(n: nat, size: nat)
    requires size > 0
    ensures n == 0 <==> CeilDiv(n, size) == 0
    ensures n > 0 ==> CeilDiv(n, size) == CeilDiv(n - Min(size, n), size) + 1
  {
    if n == 0 {
      QuotientUnique(size - 1, size, 0, size - 1);
    } else {
      var m := n + size - 1;
      Divide(m, size);
      if n <= size {
        QuotientUnique(m, size, 1, n - 1);
        QuotientUnique(size - 1, size, 0, size - 1);
      } else {
        Divide(m - size, size);
        ScaleNext(Quot(m - size, size), size);
        QuotientUnique(m, size, Quot(m - size, size) + 1, Rem(m - size, size));
      }
    }
  }

  /** The metadata of a batch: where every chunk starts, which request it belongs to, and the last
      chunk of every request. */
  method ComputeChunkMetadata(b: Batch) returns (cu: seq<nat>, seqIdx: seq<nat>, lastChunk: seq<int>)
    requires b.Valid()
    ensures IsMetadata(b, cu, lastChunk)
    ensures |seqIdx| == |cu| - 1 && forall k | 0 <= k < |seqIdx| :: b.Owns(seqIdx[k], k)
  {
    cu, seqIdx, lastChunk := [], [], [];
    var position := 0;
    for r := 0 to |b.computed|
      invariant Describes(cu, position, b.Lens(r))
      invariant |lastChunk| == r && |seqIdx| == |cu| == |b.Lens(r)|
      invariant forall q | 0 <= q < r :: lastChunk[q] == |b.Lens(q + 1)| - 1
      invariant forall k | 0 <= k < |seqIdx| :: b.Owns(seqIdx[k], k)
    {
      hide Describes, ChunkLens, Pieces;
      ghost var lens := b.Lens(r);
      var before := |cu|;
      cu, position := CutRequest(b.size, b.computed[r], b.New(r), cu, position, lens);
      assert b.Lens(r + 1) == lens + ChunkLens(b.computed[r], b.New(r), b.size);
      DescribesSize(cu, position, b.Lens(r + 1));
      seqIdx := seqIdx + seq(|cu| - before, _ => r);
      lastChunk := lastChunk + [|cu| - 1];
    }
    cu := cu + [position];
  }

  lemma DescribesSize(cu: seq<nat>, position: nat, lens: seq<nat>)
    requires Describes(cu, position, lens)
    ensures |cu| == |lens|
  {
  }

  // ---------------------------------------------------------------------------------------
  // Checkpoints land on their blocks
  // ---------------------------------------------------------------------------------------

  /** The first chunk fits into a block and the middle ones fill one. */
  ghost predicate FillsBlocks(chunks: seq<nat>, size: nat) {
    |chunks| > 1 ==> chunks[0] <= size && forall k | 0 < k < |chunks| - 1 :: chunks[k] == size
  }

  /** Where the kernel takes the first token to be, when the first block is f. */
  function StartAt(chunks: seq<nat>, f: nat, size: nat): nat {
    Scale(f, size) + if |chunks| > 1 && chunks[0] < size then size - chunks[0] else 0
  }

  lemma {:induction false} FullBlocks(chunks: seq<nat>, f: nat, size: nat, k: nat)
    requires |chunks| > 1 && FillsBlocks(chunks, size) && k < |chunks| - 1
    ensures StartAt(chunks, f, size) + Tokens(chunks, k + 1) == Scale(f + k + 1, size)
  {
    ScaleNext(f + k, size);
    assert Tokens(chunks, 1) == chunks[0];
    if k > 0 {
      FullBlocks(chunks, f, size, k - 1);
    }
  }

  /** Where the chunks do not fill blocks, some chunk before the last ends inside one. */
  lemma NotFullBlocks(chunks: seq<nat>, f: nat, size: nat) returns (k: nat)
    requires !FillsBlocks(chunks, size)
    ensures k < |chunks| - 1 && StartAt(chunks, f, size) + Tokens(chunks, k + 1) != Scale(f + k + 1, size)
  {
    assert Tokens(chunks, 1) == chunks[0];
    if chunks[0] > size {
      k := 0;
      ScaleNext(f, size);
    } else {
      k :| 0 < k < |chunks| - 1 && chunks[k] != size;
      ScaleNext(f + k, size);
      if StartAt(chunks, f, size) + Tokens(chunks, k) != Scale(f + k, size) { k := k - 1; }
    }
  }

  /** Chunk k ends with the k-th block from the first scheduled one. */
  predicate EndsBlock(l: Launch, i: nat, k: nat)
    requires l.Readable() && i < l.batch && l.prefixCache.Some? && k < |l.Chunks(i)| - 1
  {
    var pc := l.prefixCache.value;
    l.LastPosition(pc, i, k) + 1 == Scale(pc.blockFirst[i] + k + 1, l.blockSize)
  }

  lemma PositionAfter(l: Launch, i: nat, k: nat)
    requires l.Readable() && i < l.batch && l.prefixCache.Some? && k < |l.Chunks(i)| - 1
    ensures
      var pc, chunks := l.prefixCache.value, l.Chunks(i);
      l.LastPosition(pc, i, k) + 1 == StartAt(chunks, pc.blockFirst[i], l.blockSize) + Tokens(chunks, k + 1)
  {
    hide Launch.Readable, Launch.Chunks, Scale;
  }

  lemma MiddleColumn(l: Launch, i: nat, k: nat)
    requires l.Readable() && i < l.batch && l.prefixCache.Some? && k < |l.Chunks(i)| - 1
    ensures l.blockSize > 0
    ensures l.StoreColumn(l.prefixCache.value, i, k) == Quot(l.LastPosition(l.prefixCache.value, i, k), l.blockSize)
  {
    hide Launch.Chunks, Launch.LastPosition, Quot;
  }

  lemma LastColumn(l: Launch, i: nat)
    requires l.Readable() && i < l.batch && l.prefixCache.Some? && |l.Chunks(i)| > 0
    ensures l.StoreColumn(l.prefixCache.value, i, |l.Chunks(i)| - 1) == l.prefixCache.value.blockLast[i]
  {
    hide Launch.Chunks, Launch.LastPosition, Quot;
  }

  lemma ColumnOfBlock(l: Launch, i: nat, k: nat)
    requires l.Readable() && i < l.batch && l.prefixCache.Some? && k < |l.Chunks(i)| - 1 && EndsBlock(l, i, k)
    ensures l.StoreColumn(l.prefixCache.value, i, k) == l.prefixCache.value.blockFirst[i] + k
  {
    hide *;
    EndsBlockIs(l, i, k);
    MiddleColumn(l, i, k);
    EndOfBlock(l.LastPosition(l.prefixCache.value, i, k), l.blockSize, l.prefixCache.value.blockFirst[i] + k);
  }

  lemma EndsBlockIs(l: Launch, i: nat, k: nat)
    requires l.Readable() && i < l.batch && l.prefixCache.Some? && k < |l.Chunks(i)| - 1
    ensures i < |l.prefixCache.value.blockFirst|
    ensures EndsBlock(l, i, k) <==>
            l.LastPosition(l.prefixCache.value, i, k) + 1 ==
                Scale(l.prefixCache.value.blockFirst[i] + k + 1, l.blockSize)
  {
    hide Launch.Chunks, Launch.LastPosition, Scale;
  }

  lemma EndOfBlock(last: nat, size: nat, block: nat)
    requires size > 0 && last + 1 == Scale(block + 1, size)
    ensures Quot(last, size) == block
  {
    hide *;
    ScaleNext(block, size);
    QuotientUnique(last, size, block, size - 1);
  }

  /** Every checkpoint but the last is the state at the end of a block, block after block, exactly when the
      first chunk fits into a block and the middle ones fill one; the column it goes to is then the block that
      ends there. */
  lemma CheckpointsOnBoundaries(l: Launch, i: nat)
    requires l.Readable() && i < l.batch && l.prefixCache.Some?
    ensures (forall k: nat | k < |l.Chunks(i)| - 1 :: EndsBlock(l, i, k)) <==> FillsBlocks(l.Chunks(i), l.blockSize)
    ensures FillsBlocks(l.Chunks(i), l.blockSize) ==>
              forall k: nat | k < |l.Chunks(i)| - 1 ::
                l.StoreColumn(l.prefixCache.value, i, k) == l.prefixCache.value.blockFirst[i] + k
  {
    var chunks, f, size := l.Chunks(i), l.prefixCache.value.blockFirst[i], l.blockSize;
    if FillsBlocks(chunks, size) {
      forall k: nat | k < |chunks| - 1
        ensures EndsBlock(l, i, k)
        ensures l.StoreColumn(l.prefixCache.value, i, k) == f + k
      {
        PositionAfter(l, i, k);
        FullBlocks(chunks, f, size, k);
        hide Launch.Readable, Launch.Chunks, Launch.LastPosition, Launch.StoreColumn, Scale;
        ColumnOfBlock(l, i, k);
      }
    } else {
      var k := NotFullBlocks(chunks, f, size);
      PositionAfter(l, i, k);
      hide Launch.Readable, Launch.Chunks, Launch.LastPosition, Launch.StoreColumn, Scale;
      assert !EndsBlock(l, i, k);
    }
  }

  /** The block indices the scheduler hands to the kernel for a request with c computed and n new tokens. */
  function BlockFirst(c: nat, size: nat): nat
    requires size > 0
  {
    Divide(c, size);
    QuotientUnique(c + 1 + size - 1, size, Quot(c, size) + 1, Rem(c, size));
    CeilDiv(c + 1, size) - 1
  }

  function BlockOfLast(t: nat, size: nat): nat
    requires size > 0
  {
    if CeilDiv(t, size) == 0 then 0 else CeilDiv(t, size) - 1
  }

  lemma BlockFirstIs(c: nat, size: nat)
    requires size > 0
    ensures BlockFirst(c, size) == Quot(c, size)
  {
    Divide(c, size);
    QuotientUnique(c + 1 + size - 1, size, Quot(c, size) + 1, Rem(c, size));
  }

  /** Sequence i of a launch was set up by the scheduler with c computed and n new tokens. */
  ghost predicate Scheduled(l: Launch, i: nat, c: nat, n: nat)
    requires l.Readable() && i < l.batch
  {
    && l.prefixCache.Some? && n > 0
    && var pc := l.prefixCache.value;
       && l.Chunks(i) == Pieces(c, n, l.blockSize)
       && pc.blockFirst[i] == BlockFirst(c, l.blockSize)
       && pc.blockLast[i] == BlockOfLast(c + n, l.blockSize)
       && pc.initialIdx[i] == BlockOfLast(c, l.blockSize)
  }

  lemma ScheduledParts(l: Launch, i: nat, c: nat, n: nat)
    requires l.Readable() && i < l.batch && Scheduled(l, i, c, n)
    ensures l.prefixCache.Some? && l.blockSize > 0 && n > 0 && l.Chunks(i) == Pieces(c, n, l.blockSize)
    ensures l.prefixCache.value.blockFirst[i] == Quot(c, l.blockSize)
    ensures l.prefixCache.value.blockLast[i] == BlockOfLast(c + n, l.blockSize)
  {
    BlockFirstIs(c, l.blockSize);
    hide Launch.Chunks, Pieces, BlockFirst, BlockOfLast, Quot, Rem;
  }

  /** A scheduled sequence is cut so that checkpoints fall on block ends. */
  lemma ScheduledEndsBlock(l: Launch, i: nat, c: nat, n: nat, k: nat)
    requires l.Readable() && i < l.batch && Scheduled(l, i, c, n) && l.prefixCache.Some? && k < |l.Chunks(i)| - 1
    ensures EndsBlock(l, i, k)
  {
    ScheduledParts(l, i, c, n);
    PositionAfter(l, i, k);
    var chunks, size := l.Chunks(i), l.blockSize;
    hide Launch.Readable, Launch.Chunks, Launch.LastPosition, Pieces, Scale, Quot, Rem, Scheduled;
    PieceEnds(c, n, size, k);
    PieceEnds(c, n, size, 0);
    Divide(c, size);
    ScaleNext(Quot(c, size), size);
    assert Tokens(chunks, 1) == chunks[0];
  }

  /** Chunk k of a scheduled sequence is filed under block Quot(c, size) + k: blocks are visited in order,
      none twice, and the state filed is the one at the end of the block, or after the last token. */
  lemma CheckpointBlocks(l: Launch, i: nat, c: nat, n: nat, k: nat)
    requires l.Readable() && i < l.batch && Scheduled(l, i, c, n) && k < |l.Chunks(i)|
    ensures l.StoreColumn(l.prefixCache.value, i, k) == Quot(c, l.blockSize) + k
    ensures c + Tokens(l.Chunks(i), k + 1) == Min(Scale(Quot(c, l.blockSize) + k + 1, l.blockSize), c + n)
  {
    hide *;
    ScheduledParts(l, i, c, n);
    PieceEnds(c, n, l.blockSize, k);
    if k < |l.Chunks(i)| - 1 {
      ScheduledEndsBlock(l, i, c, n, k);
      ColumnOfBlock(l, i, k);
    } else {
      LastColumn(l, i);
      BlockOfLastIs(c + n, l.blockSize, Quot(c, l.blockSize) + k);
    }
  }

  lemma BlockOfLastIs(t: nat, size: nat, q: nat)
    requires size > 0 && CeilDiv(t, size) == q + 1
    ensures BlockOfLast(t, size) == q
  {
    hide CeilDiv;
  }

  /** Column b of the row of sequence i of one launch and of sequence j of another hold the same slot. */
  ghost predicate SameAt(l: Launch, i: nat, m: Launch, j: nat, b: nat) {
    && l.cacheIndices.Some? && l.CacheAt(i, b) < |l.cacheIndices.value|
    && m.cacheIndices.Some? && m.CacheAt(j, b) < |m.cacheIndices.value|
    && l.cacheIndices.value[l.CacheAt(i, b)] == m.cacheIndices.value[m.CacheAt(j, b)]
  }

  /** A piece finds its initial state in the slot the piece before it left its final state in, when the block tables
      agree in the one column of the last computed token. */
  lemma ResumesWhereSaved(l: Launch, i: nat, m: Launch, j: nat, c: nat, n: nat, more: nat)
    requires l.Readable() && i < l.batch && m.Readable() && j < m.batch && l.blockSize == m.blockSize
    requires Scheduled(l, i, c, n) && Scheduled(m, j, c + n, more)
    requires SameAt(l, i, m, j, BlockOfLast(c + n, l.blockSize))
    ensures |l.Chunks(i)| > 0 && m.LoadSlot(j) == l.StoreSlot(i, |l.Chunks(i)| - 1)
  {
    ScheduledParts(l, i, c, n);
    PiecesCover(c, n, l.blockSize);
    LastColumn(l, i);
    hide Launch.Chunks, Pieces, BlockFirst, Launch.StoreColumn, BlockOfLast, Launch.CacheAt;
  }

  // ---------------------------------------------------------------------------------------
  // From the builder to the kernel
  // ---------------------------------------------------------------------------------------

  lemma {:induction false} LensPrefix(b: Batch, q: nat, r: nat)
    requires b.Valid() && q <= r <= |b.computed|
    ensures b.Lens(q) <= b.Lens(r)
    decreases r
  {
    if q < r {
      LensPrefix(b, q, r - 1);
    }
  }

  lemma DifferencesOfSums(lens: seq<nat>, first: nat, n: nat)
    requires first + n <= |lens|
    ensures Differences(PrefixSums(lens), first, n) == lens[first..first + n]
  {
  }

  lemma LensOfRequest(b: Batch, i: nat)
    requires b.Valid() && i < |b.computed|
    ensures var lens := ChunkLens(b.computed[i], b.New(i), b.size);
            && |b.Lens(i + 1)| == |b.Lens(i)| + |lens| <= |b.Lens(|b.computed|)|
            && b.Lens(|b.computed|)[|b.Lens(i)|..|b.Lens(i)| + |lens|] == lens
  {
    LensPrefix(b, i + 1, |b.computed|);
    hide ChunkLens;
    assert b.Lens(i + 1) == b.Lens(i) + ChunkLens(b.computed[i], b.New(i), b.size);
  }

  /** `cu` and `lastChunk` are the metadata of the batch. */
  ghost predicate IsMetadata(b: Batch, cu: seq<nat>, lastChunk: seq<int>)
    requires b.Valid()
  {
    && cu == PrefixSums(b.Lens(|b.computed|))
    && |lastChunk| == |b.computed| && forall r | 0 <= r < |b.computed| :: lastChunk[r] == |b.Lens(r + 1)| - 1
  }

  function FirstOf(lastChunk: seq<int>, r: nat): int
    requires r < |lastChunk|
  {
    if r == 0 then 0 else lastChunk[r - 1] + 1
  }

  /** The chunk lengths of every request can be read off the metadata, also those of a request without new
      tokens: none at a block boundary, otherwise one empty chunk. */
  lemma MetadataCuts(b: Batch, cu: seq<nat>, lastChunk: seq<int>, r: nat)
    requires b.Valid() && IsMetadata(b, cu, lastChunk) && r < |b.computed|
    ensures
      var first, n := FirstOf(lastChunk, r), lastChunk[r] + 1 - FirstOf(lastChunk, r);
      && 0 <= first && 0 <= n && first + n < |cu|
      && Differences(cu, first, n) == ChunkLens(b.computed[r], b.New(r), b.size)
  {
    LensOfRequest(b, r);
    assert lastChunk[r] == |b.Lens(r + 1)| - 1;
    if r > 0 { assert lastChunk[r - 1] == |b.Lens(r)| - 1; }
    DifferencesOfSums(b.Lens(|b.computed|), |b.Lens(r)|, |ChunkLens(b.computed[r], b.New(r), b.size)|);
  }

  lemma {:induction false} TokensAppend(a: seq<nat>, b: seq<nat>, k: nat)
    requires k <= |b|
    ensures Tokens(a + b, |a| + k) == Tokens(a, |a|) + Tokens(b, k)
  {
    if k == 0 {
      TokensPrefix(a, b, |a|);
    } else {
      TokensAppend(a, b, k - 1);
    }
  }

  lemma ChunkLensCover(c: nat, n: nat, size: nat)
    requires size > 0
    ensures Tokens(ChunkLens(c, n, size), |ChunkLens(c, n, size)|) == n
  {
    PiecesCover(c, n, size);
    assert Tokens([0], 1) == 0;
  }

  /** The chunks of the first r requests hold the tokens before where the next request starts. */
  lemma {:induction false} TokensBefore(b: Batch, r: nat)
    requires b.Valid() && r <= |b.computed|
    ensures b.starts[0] <= b.starts[r] && Tokens(b.Lens(r), |b.Lens(r)|) == b.starts[r] - b.starts[0]
  {
    if r > 0 {
      TokensBefore(b, r - 1);
      var lens := ChunkLens(b.computed[r - 1], b.New(r - 1), b.size);
      TokensAppend(b.Lens(r - 1), lens, |lens|);
      ChunkLensCover(b.computed[r - 1], b.New(r - 1), b.size);
    }
  }

  /** The chunks of one request. */
  lemma RequestIsCut(c: nat, n: nat, size: nat)
    requires size > 0
    ensures
      var cut := ChunkLens(c, n, size);
      && Tokens(cut, |cut|) == n
      && (n > 0 ==> |cut| > 0 && Scale(Quot(c, size) + |cut| - 1, size) < c + n <= Scale(Quot(c, size) + |cut|, size))
      && (n == 0 ==> |cut| == if Rem(c, size) == 0 then 0 else 1)
  {
    var cut := ChunkLens(c, n, size);
    ChunkLensCover(c, n, size);
    Divide(c, size);
    if n > 0 {
      PiecesCover(c, n, size);
      hide Pieces, Scale, Quot, Rem, CeilDiv;
      PieceEnds(c, n, size, |cut| - 1);
      if |cut| > 1 { CutAt(c, n, size, |cut| - 1); }
    }
  }

  lemma CutAt(c: nat, n: nat, size: nat, k: nat)
    requires size > 0 && 0 < k < |ChunkLens(c, n, size)|
    ensures c + Tokens(ChunkLens(c, n, size), k) == Scale(Quot(c, size) + k, size) < c + n
  {
    hide Scale, Quot, Rem;
    PieceEnds(c, n, size, k - 1);
    LastNotEmpty(c, n, size, k);
  }

  /** The cuts of a request lie before its last token. */
  lemma {:induction false} LastNotEmpty(c: nat, n: nat, size: nat, k: nat)
    requires size > 0 && k < |Pieces(c, n, size)|
    ensures Tokens(Pieces(c, n, size), k) < n
    decreases n
  {
    if k > 0 {
      var len := Min(size - Rem(c, size), n);
      FirstPieceEnds(c, n, size);
      hide Rem;
      LastNotEmpty(c + len, n - len, size, k - 1);
      TokensCons(len, Pieces(c + len, n - len, size), k - 1);
    }
  }

  /** The place of chunk k of a request in the metadata, and where its last one ends. */
  lemma RequestLies(b: Batch, cu: seq<nat>, lastChunk: seq<int>, r: nat, k: nat)
    requires b.Valid() && IsMetadata(b, cu, lastChunk) && r < |b.computed|
    requires k <= |ChunkLens(b.computed[r], b.New(r), b.size)|
    ensures
      var first, cut := FirstOf(lastChunk, r), ChunkLens(b.computed[r], b.New(r), b.size);
      && 0 <= first && lastChunk[r] + 1 == first + |cut| < |cu|
      && (r == |b.computed| - 1 ==> |cu| == first + |cut| + 1)
      && b.starts[0] + cu[first + k] == b.starts[r] + Tokens(cut, k)
  {
    var lens, all := b.Lens(r), b.Lens(|b.computed|);
    var cut := ChunkLens(b.computed[r], b.New(r), b.size);
    RequestPlace(b, lastChunk, r);
    TokensBefore(b, r);
    hide ChunkLens, Tokens, Batch.Lens;
    TokensInside(all, lens, cut, k);
  }

  lemma RequestPlace(b: Batch, lastChunk: seq<int>, r: nat)
    requires b.Valid() && r < |b.computed| == |lastChunk|
    requires forall q | 0 <= q < |b.computed| :: lastChunk[q] == |b.Lens(q + 1)| - 1
    ensures
      var cut := ChunkLens(b.computed[r], b.New(r), b.size);
      && FirstOf(lastChunk, r) == |b.Lens(r)| && lastChunk[r] + 1 == |b.Lens(r)| + |cut| == |b.Lens(r + 1)|
      && b.Lens(r) + cut <= b.Lens(|b.computed|)
  {
    LensPrefix(b, r + 1, |b.computed|);
    hide ChunkLens;
    assert b.Lens(r + 1) == b.Lens(r) + ChunkLens(b.computed[r], b.New(r), b.size);
    assert lastChunk[r] == |b.Lens(r + 1)| - 1;
    if r > 0 { assert lastChunk[r - 1] == |b.Lens(r)| - 1; }
  }

  lemma TokensInside(all: seq<nat>, lens: seq<nat>, cut: seq<nat>, k: nat)
    requires lens + cut <= all && k <= |cut|
    ensures Tokens(all, |lens| + k) == Tokens(lens, |lens|) + Tokens(cut, k)
  {
    TokensAppend(lens, cut, k);
    TokensPrefix(lens + cut, all[|lens| + |cut|..], |lens| + k);
    assert all == lens + cut + all[|lens| + |cut|..];
  }

  lemma TokensOfNone(chunks: seq<nat>)
    ensures Tokens(chunks, 0) == 0
  {
  }

  /** What the metadata says of a request, from where the requests start: its chunks hold its own tokens and no
      others, and there is one for every block it reaches; a request without new tokens has none, or an empty one
      when it stopped inside a block. */
  lemma MetadataSays(b: Batch, cu: seq<nat>, lastChunk: seq<int>, r: nat)
    requires b.Valid() && IsMetadata(b, cu, lastChunk) && r < |b.computed|
    ensures
      var c, n, first, last := b.computed[r], b.starts[r + 1] - b.starts[r],
                               if r == 0 then 0 else lastChunk[r - 1] + 1, lastChunk[r];
      && 0 <= first <= last + 1 < |cu| && (r == |b.computed| - 1 ==> |cu| == last + 2)
      && b.starts[0] + cu[first] == b.starts[r] && b.starts[0] + cu[last + 1] == b.starts[r + 1]
      && (n > 0 ==> first <= last && Scale(Quot(c, b.size) + last - first, b.size) < c + n
                    && c + n <= Scale(Quot(c, b.size) + last - first + 1, b.size))
      && (n == 0 ==> last == if Rem(c, b.size) == 0 then first - 1 else first)
      && forall k: nat :: b.Owns(r, k) <==> first <= k <= last
  {
    var c, n := b.computed[r], b.New(r);
    var cut := ChunkLens(c, n, b.size);
    RequestPlace(b, lastChunk, r);
    assert b.starts[r + 1] == b.starts[r] + n;
    assert forall k: nat :: b.Owns(r, k) <==> |b.Lens(r)| <= k < |b.Lens(r + 1)|;
    assert FirstOf(lastChunk, r) == if r == 0 then 0 else lastChunk[r - 1] + 1;
    hide *;
    RequestLies(b, cu, lastChunk, r, 0);
    RequestLies(b, cu, lastChunk, r, |cut|);
    TokensOfNone(cut);
    RequestIsCut(c, n, b.size);
  }

  /** A request is cut where its blocks end, one after the other. */
  lemma MetadataCutsBlocks(b: Batch, cu: seq<nat>, lastChunk: seq<int>, r: nat, j: nat)
    requires b.Valid() && IsMetadata(b, cu, lastChunk) && r < |b.computed|
    requires 0 < j && (if r == 0 then 0 else lastChunk[r - 1] + 1) + j <= lastChunk[r]
    ensures
      var c, first := b.computed[r], if r == 0 then 0 else lastChunk[r - 1] + 1;
      && 0 <= first && first + j < |cu|
      && b.starts[0] + cu[first + j] + c == b.starts[r] + Scale(Quot(c, b.size) + j, b.size)
      && b.starts[0] + cu[first + j] < b.starts[r + 1]
  {
    RequestPlace(b, lastChunk, r);
    assert b.starts[r + 1] == b.starts[r] + b.New(r);
    assert FirstOf(lastChunk, r) == if r == 0 then 0 else lastChunk[r - 1] + 1;
    hide *;
    RequestLies(b, cu, lastChunk, r, j);
    CutAt(b.computed[r], b.New(r), b.size, j);
  }

  /** So a launch that carries the metadata cuts every request as the builder did. */
  lemma LaunchCuts(b: Batch, l: Launch, i: nat)
    requires b.Valid() && l.Readable() && l.prefixCache.Some? && l.blockSize == b.size
    requires l.batch == |b.computed| && i < l.batch
    requires IsMetadata(b, l.prefixCache.value.cuChunks, l.prefixCache.value.lastChunk)
    ensures l.Chunks(i) == ChunkLens(b.computed[i], b.New(i), b.size)
  {
    var pc := l.prefixCache.value;
    MetadataCuts(b, pc.cuChunks, pc.lastChunk, i);
    hide ChunkLens, IsMetadata;
    assert l.FirstChunk(pc, i) == FirstOf(pc.lastChunk, i);
  }

  /** What a plan must look like for n tokens of a prompt after c computed ones, with blocks of `size` tokens. */
  ghost predicate Continues(p: Plan, d: nat, size: nat, c: nat, n: nat) {
    && size > 0 && n > 0 && p.d == d && p.chunks == Pieces(c, n, size) && |p.cells| == |p.chunks|
    && (p.load.Some? <==> c > 0)
  }

  /** The cell block b of sequence i is filed in; -1 when the table has no such block. */
  function TableCell(l: Launch, i: nat, d: nat, b: nat): int {
    if l.cacheIndices.Some? && l.CacheAt(i, b) < |l.cacheIndices.value| && l.cacheIndices.value[l.CacheAt(i, b)] >= 0
    then l.StateAddress(l.cacheIndices.value[l.CacheAt(i, b)], d)
    else -1
  }

  lemma CellOfChunk(l: Launch, i: nat, d: nat, c: nat, n: nat, k: nat)
    requires l.Readable() && i < l.batch && d < l.dim && Scheduled(l, i, c, n) && l.Slotted(i) && k < |l.Chunks(i)|
    ensures PlanOf(l, i, d).cells[k] == TableCell(l, i, d, Quot(c, l.blockSize) + k)
  {
    CheckpointBlocks(l, i, c, n, k);
    PlanParts(l, i, d);
    assert 0 <= l.StoreSlot(i, k);
    hide Launch.Readable, Launch.Chunks, Launch.StoreColumn, Launch.CacheAt, Launch.StateAddress, Scheduled, PlanOf;
  }

  /** The plan of a scheduled sequence is such a plan, when it loads a state exactly if tokens were computed before.
      It loads the block of the last computed token, and files block after block from that of the first new one. */
  lemma ScheduledContinues(l: Launch, i: nat, d: nat, c: nat, n: nat)
    requires l.Readable() && i < l.batch && d < l.dim && Scheduled(l, i, c, n) && l.Slotted(i)
    requires l.HasInitial(i) <==> c > 0
    ensures
      var p, size := PlanOf(l, i, d), l.blockSize;
      && Continues(p, d, size, c, n)
      && (c > 0 ==> p.load.value == TableCell(l, i, d, BlockOfLast(c, size)))
      && forall k | 0 <= k < |p.cells| :: p.cells[k] == TableCell(l, i, d, Quot(c, size) + k)
  {
    var p, size := PlanOf(l, i, d), l.blockSize;
    ScheduledParts(l, i, c, n);
    PlanParts(l, i, d);
    assert c > 0 ==> p.load.value == TableCell(l, i, d, BlockOfLast(c, size));
    hide Launch.Readable, Launch.Slotted, Launch.Chunks, Launch.StateAddress, Launch.StoreSlot, Launch.LoadSlot,
         Launch.HasInitial, Scheduled, Pieces, TableCell, BlockOfLast, PlanOf, Quot;
    forall k | 0 <= k < |p.cells|
      ensures p.cells[k] == TableCell(l, i, d, Quot(c, size) + k)
    {
      CellOfChunk(l, i, d, c, n, k);
    }
  }

  // ---------------------------------------------------------------------------------------
  // One piece of a prompt
  // ---------------------------------------------------------------------------------------

  /** The scan of a middle piece, started from the state before it, is the scan of the whole. */
  lemma {:induction false} PieceOfScan(ar: Arithmetic, d: nat, toks: seq<Token>, c: nat, n: nat, m: nat)
    requires c + n <= |toks| && m <= n
    ensures var start, lane := StateAfter(ar, d, ar.zero, toks, c), toks[c..c + n];
            && StateAfter(ar, d, start, lane, m) == StateAfter(ar, d, ar.zero, toks, c + m)
            && (m < n ==>
                  && OutputAt(ar, d, start, lane, m) == OutputAt(ar, d, ar.zero, toks, c + m)
                  && GatedAt(ar, d, start, lane, m) == GatedAt(ar, d, ar.zero, toks, c + m))
    decreases m
  {
    if m > 0 {
      PieceOfScan(ar, d, toks, c, n, m - 1);
    }
  }

  lemma PieceOutputs(ar: Arithmetic, d: nat, toks: seq<Token>, c: nat, n: nat, start: Vec)
    requires c + n <= |toks| && start == StateAfter(ar, d, ar.zero, toks, c)
    ensures Outputs(ar, d, start, toks[c..c + n]) == Outputs(ar, d, ar.zero, toks)[c..c + n]
    ensures GatedOutputs(ar, d, start, toks[c..c + n]) == GatedOutputs(ar, d, ar.zero, toks)[c..c + n]
  {
    var lane := toks[c..c + n];
    forall m | 0 <= m < n
      ensures OutputAt(ar, d, start, lane, m) == OutputAt(ar, d, ar.zero, toks, c + m)
      ensures GatedAt(ar, d, start, lane, m) == GatedAt(ar, d, ar.zero, toks, c + m)
    {
      PieceOfScan(ar, d, toks, c, n, m);
    }
  }

  /** The state after chunk j. */
  function EndState(ar: Arithmetic, p: Plan, start: Vec, toks: seq<Token>, j: nat): Vec
    requires |toks| == p.Count() && j < |p.chunks|
  {
    TokensMonotone(p.chunks, j + 1, |p.chunks|);
    StateAfter(ar, p.d, start, toks, Tokens(p.chunks, j + 1))
  }

  /** No chunk between chunk j and chunk k stores in the cell of chunk j. */
  ghost predicate StandsUntil(cells: seq<nat>, j: nat, k: nat) {
    j < k <= |cells| && forall m | j < m < k :: cells[m] != cells[j]
  }

  lemma {:induction false} SavedCell(
    ar: Arithmetic, p: Plan, start: Vec, toks: seq<Token>, states: seq<Vec>, j: nat, k: nat)
    requires |p.cells| == |p.chunks| && |toks| == p.Count() && k <= |p.chunks| && StandsUntil(p.cells, j, k)
    requires forall i | 0 <= i < |p.cells| :: p.cells[i] < |states|
    ensures Saved(ar, p, start, toks, states, k)[p.cells[j]] == EndState(ar, p, start, toks, j)
    decreases k
  {
    hide Plan.Count, StateAfter;
    if j < k - 1 {
      SavedCell(ar, p, start, toks, states, j, k - 1);
    }
  }

  lemma {:induction false} SavedElsewhere(
    ar: Arithmetic, p: Plan, start: Vec, toks: seq<Token>, states: seq<Vec>, k: nat, a: nat)
    requires |p.cells| == |p.chunks| && |toks| == p.Count() && k <= |p.chunks|
    requires forall i | 0 <= i < |p.cells| :: p.cells[i] < |states|
    requires a < |states| && a !in p.cells
    ensures Saved(ar, p, start, toks, states, k)[a] == states[a]
    decreases k
  {
    hide Plan.Count, StateAfter;
    if k > 0 {
      SavedElsewhere(ar, p, start, toks, states, k - 1, a);
    }
  }

  /** The checkpoints, said without the scan: the state stored after chunk k is the one the recurrence has reached
      after the tokens of the first k + 1 chunks. */
  lemma CheckpointIsReached(
    ar: Arithmetic, p: Plan, start: Vec, toks: seq<Token>, run: seq<Vec>, states: seq<Vec>, k: nat)
    requires |p.cells| == |p.chunks| && |toks| == p.Count() && StandsUntil(p.cells, k, |p.cells|)
    requires forall j | 0 <= j < |p.cells| :: p.cells[j] < |states|
    requires Recurs(ar, p.d, toks, run) && run[0] == start
    ensures Tokens(p.chunks, k + 1) <= |toks|
    ensures Saved(ar, p, start, toks, states, |p.chunks|)[p.cells[k]] == run[Tokens(p.chunks, k + 1)]
  {
    TokensMonotone(p.chunks, k + 1, |p.chunks|);
    hide Saved, StateAfter, Recurs;
    SavedCell(ar, p, start, toks, states, k, |p.chunks|);
    ScanIsRecurrence(ar, p.d, start, toks, run, Tokens(p.chunks, k + 1));
  }

  /** The state buffer after one piece. */
  function AfterPiece(ar: Arithmetic, p: Plan, lane: seq<Token>, states: seq<Vec>): (r: seq<Vec>)
    requires |p.cells| == |p.chunks| && |lane| == p.Count() && (p.load.Some? ==> p.load.value < |states|)
    requires forall k | 0 <= k < |p.cells| :: p.cells[k] < |states|
    ensures |r| == |states|
  {
    Saved(ar, p, p.Start(ar, states), lane, states, |p.chunks|)
  }

  /** What block j of a prompt is filed with when N tokens are computed: the state at its end, or after token N. */
  function BlockState(ar: Arithmetic, d: nat, toks: seq<Token>, size: nat, j: nat, N: nat): Vec
    requires N <= |toks|
  {
    StateAfter(ar, d, ar.zero, toks, Min(Scale(j + 1, size), N))
  }

  /** The plan's cells are in the buffer, and it starts from the state after the first c tokens. */
  ghost predicate StartsAfter(ar: Arithmetic, p: Plan, toks: seq<Token>, c: nat, states: seq<Vec>)
    requires c <= |toks|
  {
    && (forall k | 0 <= k < |p.cells| :: p.cells[k] < |states|)
    && (p.load.Some? ==> p.load.value < |states| && states[p.load.value] == StateAfter(ar, p.d, ar.zero, toks, c))
  }

  /** What a piece files: every chunk the state of its block, unless a later chunk of the piece stores in the same
      cell, and the last chunk the state after all N tokens so far. */
  ghost predicate Files(
    ar: Arithmetic, p: Plan, toks: seq<Token>, size: nat, c: nat, N: nat, states: seq<Vec>)
    requires size > 0 && N <= |toks|
  {
    && |p.cells| > 0 && (forall k | 0 <= k < |p.cells| :: p.cells[k] < |states|)
    && (forall k: nat | k < |p.cells| :: FilesChunk(ar, p, toks, size, c, N, states, k))
    && states[p.cells[|p.cells| - 1]] == StateAfter(ar, p.d, ar.zero, toks, N)
  }

  ghost predicate FilesChunk(
    ar: Arithmetic, p: Plan, toks: seq<Token>, size: nat, c: nat, N: nat, states: seq<Vec>, k: nat)
    requires size > 0 && N <= |toks| && k < |p.cells| && p.cells[k] < |states|
  {
    StandsUntil(p.cells, k, |p.cells|) ==>
      states[p.cells[k]] == BlockState(ar, p.d, toks, size, Quot(c, size) + k, N)
  }

  lemma NoTokens(ar: Arithmetic, d: nat, toks: seq<Token>)
    ensures StateAfter(ar, d, ar.zero, toks, 0) == ar.zero
  {
  }

  /** The state after chunk k is that of its block. */
  lemma EndOfChunk(ar: Arithmetic, p: Plan, d: nat, toks: seq<Token>, size: nat, c: nat, n: nat, k: nat)
    requires Continues(p, d, size, c, n) && c + n <= |toks| && p.Count() == n && k < |p.cells|
    ensures EndState(ar, p, StateAfter(ar, d, ar.zero, toks, c), toks[c..c + n], k)
         == BlockState(ar, d, toks, size, Quot(c, size) + k, c + n)
  {
    hide Scale, Quot, Pieces, StateAfter;
    PieceEnds(c, n, size, k);
    TokensMonotone(p.chunks, k + 1, |p.chunks|);
    PieceOfScan(ar, d, toks, c, n, Tokens(p.chunks, k + 1));
  }

  lemma PieceStart(ar: Arithmetic, p: Plan, d: nat, toks: seq<Token>, size: nat, c: nat, n: nat, states: seq<Vec>)
    requires Continues(p, d, size, c, n) && c + n <= |toks| && StartsAfter(ar, p, toks, c, states)
    ensures p.Count() == n && |p.cells| == |p.chunks| > 0 && size > 0 && p.d == d
    ensures (p.load.Some? ==> p.load.value < |states|) && forall k | 0 <= k < |p.cells| :: p.cells[k] < |states|
    ensures p.Start(ar, states) == StateAfter(ar, d, ar.zero, toks, c)
  {
    hide Pieces, StateAfter;
    PiecesCover(c, n, size);
    NoTokens(ar, d, toks);
  }

  /** Every chunk files the state of its block. */
  lemma ChunkFiles(ar: Arithmetic, p: Plan, d: nat, toks: seq<Token>, size: nat, c: nat, N: nat, states: seq<Vec>,
                   k: nat)
    requires c <= N <= |toks| && Continues(p, d, size, c, N - c) && p.Count() == N - c && k < |p.cells|
    requires forall k | 0 <= k < |p.cells| :: p.cells[k] < |states|
    ensures FilesChunk(ar, p, toks, size, c, N,
                       Saved(ar, p, StateAfter(ar, d, ar.zero, toks, c), toks[c..N], states, |p.chunks|), k)
  {
    hide Plan.Count, Saved, StateAfter, EndState, BlockState, Pieces, Quot;
    assert c + (N - c) == N;
    if StandsUntil(p.cells, k, |p.cells|) {
      SavedCell(ar, p, StateAfter(ar, d, ar.zero, toks, c), toks[c..N], states, k, |p.chunks|);
      EndOfChunk(ar, p, d, toks, size, c, N - c, k);
    }
  }

  /** The last chunk ends with the last token. */
  lemma LastOfPiece(ar: Arithmetic, p: Plan, d: nat, toks: seq<Token>, size: nat, c: nat, N: nat)
    requires c <= N <= |toks| && Continues(p, d, size, c, N - c) && |p.cells| > 0
    ensures BlockState(ar, d, toks, size, Quot(c, size) + |p.cells| - 1, N) == StateAfter(ar, d, ar.zero, toks, N)
  {
    hide Scale, Quot, Pieces, StateAfter, CeilDiv;
    PieceEnds(c, N - c, size, |p.cells| - 1);
  }

  lemma LastStands(cells: seq<nat>)
    requires |cells| > 0
    ensures StandsUntil(cells, |cells| - 1, |cells|)
  {
  }

  /** The states a piece files are those of the scan of the whole prompt. */
  lemma PieceFiles(ar: Arithmetic, p: Plan, d: nat, toks: seq<Token>, size: nat, c: nat, N: nat, states: seq<Vec>)
    requires c <= N <= |toks| && Continues(p, d, size, c, N - c) && p.Count() == N - c && |p.cells| > 0
    requires forall k | 0 <= k < |p.cells| :: p.cells[k] < |states|
    ensures Files(ar, p, toks, size, c, N,
                  Saved(ar, p, StateAfter(ar, d, ar.zero, toks, c), toks[c..N], states, |p.chunks|))
  {
    var after := Saved(ar, p, StateAfter(ar, d, ar.zero, toks, c), toks[c..N], states, |p.chunks|);
    hide Plan.Count, Saved, StateAfter, BlockState, Pieces, Quot, StandsUntil;
    LastOfPiece(ar, p, d, toks, size, c, N);
    hide FilesChunk;
    forall k: nat | k < |p.cells|
      ensures FilesChunk(ar, p, toks, size, c, N, after, k)
    {
      ChunkFiles(ar, p, d, toks, size, c, N, states, k);
    }
    LastFiled(ar, p, toks, size, c, N, after);
  }

  lemma LastFiled(ar: Arithmetic, p: Plan, toks: seq<Token>, size: nat, c: nat, N: nat, states: seq<Vec>)
    requires size > 0 && N <= |toks| && |p.cells| > 0 && p.cells[|p.cells| - 1] < |states|
    requires FilesChunk(ar, p, toks, size, c, N, states, |p.cells| - 1)
    requires BlockState(ar, p.d, toks, size, Quot(c, size) + |p.cells| - 1, N) == StateAfter(ar, p.d, ar.zero, toks, N)
    ensures states[p.cells[|p.cells| - 1]] == StateAfter(ar, p.d, ar.zero, toks, N)
  {
    LastStands(p.cells);
    hide StandsUntil, BlockState, StateAfter, Quot;
  }

  /** One piece, started from the state after everything before it: its outputs are those of one scan of the whole
      prompt, and every chunk leaves the state of that scan under its block, unless a later chunk of the piece
      stores in the same cell. The last chunk leaves the state after all tokens so far, and nothing else changes. */
  lemma PieceContinues(ar: Arithmetic, p: Plan, d: nat, toks: seq<Token>, size: nat, c: nat, n: nat, states: seq<Vec>)
    requires Continues(p, d, size, c, n) && c + n <= |toks| && StartsAfter(ar, p, toks, c, states)
    ensures p.Count() == n
    ensures var start, lane := p.Start(ar, states), toks[c..c + n];
            && Outputs(ar, d, start, lane) == Outputs(ar, d, ar.zero, toks)[c..c + n]
            && GatedOutputs(ar, d, start, lane) == GatedOutputs(ar, d, ar.zero, toks)[c..c + n]
    ensures var after := AfterPiece(ar, p, toks[c..c + n], states);
            && Files(ar, p, toks, size, c, c + n, after)
            && forall a | 0 <= a < |states| && a !in p.cells :: after[a] == states[a]
  {
    PieceStart(ar, p, d, toks, size, c, n, states);
    hide Continues, Plan.Start, Plan.Count, Saved, StateAfter, Outputs, GatedOutputs, StartsAfter, Files;
    PieceOutputs(ar, d, toks, c, n, p.Start(ar, states));
    PieceFiles(ar, p, d, toks, size, c, c + n, states);
    forall a | 0 <= a < |states| && a !in p.cells
      ensures AfterPiece(ar, p, toks[c..c + n], states)[a] == states[a]
    {
      SavedElsewhere(ar, p, p.Start(ar, states), toks[c..c + n], states, |p.chunks|, a);
    }
  }

  // ---------------------------------------------------------------------------------------
  // A prompt scheduled in pieces is one scan
  // ---------------------------------------------------------------------------------------

  /** A prompt of one channel, scheduled in pieces between the cuts. */
  datatype Schedule = Schedule(d: nat, toks: seq<Token>, size: nat, cuts: seq<nat>, plans: seq<Plan>)
  {
    /** Piece k is scanned by p on a buffer of that many cells. */
    ghost predicate PieceAt(k: nat, p: Plan, space: nat) {
      && k + 1 < |cuts| && cuts[k] < cuts[k + 1] <= |toks|
      && Continues(p, d, size, cuts[k], cuts[k + 1] - cuts[k])
      && p.Count() == cuts[k + 1] - cuts[k] && (p.load.Some? ==> p.load.value < space)
      && forall j | 0 <= j < |p.cells| :: p.cells[j] < space
    }
  }

  /** The state buffers the pieces find. The first piece finds the state after the tokens before the first cut, of
      which there need be none. */
  ghost predicate Traces(ar: Arithmetic, s: Schedule, trace: seq<seq<Vec>>) {
    && |trace| == |s.plans| == |s.cuts| - 1
    && (forall k | 0 <= k < |s.plans| :: s.PieceAt(k, s.plans[k], |trace[k]|))
    && (|s.plans| > 0 ==> s.cuts[0] <= |s.toks| && StartsAfter(ar, s.plans[0], s.toks, s.cuts[0], trace[0]))
    && (forall k | 0 <= k < |s.plans| - 1 :: Leads(ar, s, k, s.plans[k], s.plans[k + 1], trace[k], trace[k + 1]))
  }

  /** The next piece finds, where it loads from, the state the piece stored last: in the same cell, or copied to
      another one. All else may have changed, the tables too. */
  ghost predicate Leads(ar: Arithmetic, s: Schedule, k: nat, p: Plan, next: Plan, found: seq<Vec>, nextFound: seq<Vec>)
  {
    && s.PieceAt(k, p, |found|) && |p.cells| > 0 && next.load.Some? && next.load.value < |nextFound|
    && nextFound[next.load.value] ==
       AfterPiece(ar, p, s.toks[s.cuts[k]..s.cuts[k + 1]], found)[p.cells[|p.cells| - 1]]
  }

  /** However a prompt is cut into scheduled pieces, and whatever happens to the cache and to the block tables in
      between, except for the one state that is handed on: every piece starts from the state after everything before
      it. */
  lemma {:induction false} PiecesStart(ar: Arithmetic, s: Schedule, trace: seq<seq<Vec>>, k: nat)
    requires Traces(ar, s, trace) && k < |s.plans|
    ensures s.PieceAt(k, s.plans[k], |trace[k]|) && StartsAfter(ar, s.plans[k], s.toks, s.cuts[k], trace[k])
    decreases k
  {
    assert s.PieceAt(k, s.plans[k], |trace[k]|);
    hide Continues, AfterPiece, Outputs, GatedOutputs;
    if k > 0 {
      PiecesStart(ar, s, trace, k - 1);
      assert Leads(ar, s, k - 1, s.plans[k - 1], s.plans[k], trace[k - 1], trace[k]);
      var c, p := s.cuts[k - 1], s.plans[k - 1];
      PieceContinues(ar, p, s.d, s.toks, s.size, c, s.cuts[k] - c, trace[k - 1]);
      PlanOfChannel(s, k - 1, p, |trace[k - 1]|);
      PlanOfChannel(s, k, s.plans[k], |trace[k]|);
    }
  }

  /** So every piece outputs its part of one scan over the whole prompt, and files the states of that scan. */
  lemma PromptInPieces(ar: Arithmetic, s: Schedule, trace: seq<seq<Vec>>, k: nat)
    requires Traces(ar, s, trace) && k < |s.plans|
    ensures s.PieceAt(k, s.plans[k], |trace[k]|)
    ensures var p, c, N := s.plans[k], s.cuts[k], s.cuts[k + 1];
            var start, lane := p.Start(ar, trace[k]), s.toks[c..N];
            && Outputs(ar, s.d, start, lane) == Outputs(ar, s.d, ar.zero, s.toks)[c..N]
            && GatedOutputs(ar, s.d, start, lane) == GatedOutputs(ar, s.d, ar.zero, s.toks)[c..N]
            && |p.cells| == |p.chunks| && s.size > 0
            && Files(ar, p, s.toks, s.size, c, N, AfterPiece(ar, p, lane, trace[k]))
  {
    PiecesStart(ar, s, trace, k);
    hide Traces, AfterPiece, Outputs, GatedOutputs, Files, StartsAfter, Pieces;
    PieceContinues(ar, s.plans[k], s.d, s.toks, s.size, s.cuts[k], s.cuts[k + 1] - s.cuts[k], trace[k]);
  }

  lemma PlanOfChannel(s: Schedule, k: nat, p: Plan, space: nat)
    requires s.PieceAt(k, p, space)
    ensures p.d == s.d
  {
  }

  // ---------------------------------------------------------------------------------------
  // Every way of cutting a prompt is such a schedule
  // ---------------------------------------------------------------------------------------

  /** The plan loads the block of the last computed token from its cell in the table, and files its blocks in theirs. */
  ghost predicate OnTable(p: Plan, table: seq<nat>, size: nat, c: nat)
    requires size > 0
  {
    && Quot(c, size) + |p.cells| <= |table| && p.cells == table[Quot(c, size)..Quot(c, size) + |p.cells|]
    && (p.load.Some? ==> BlockOfLast(c, size) < |table| && p.load.value == table[BlockOfLast(c, size)])
  }

  /** The last cell of a piece is that of the block of the last token. */
  lemma LastOnTable(p: Plan, table: seq<nat>, d: nat, size: nat, c: nat, n: nat)
    requires Continues(p, d, size, c, n) && OnTable(p, table, size, c)
    ensures |p.cells| > 0 && BlockOfLast(c + n, size) == Quot(c, size) + |p.cells| - 1 < |table|
    ensures p.cells[|p.cells| - 1] == table[BlockOfLast(c + n, size)]
  {
    hide Scale, Quot, Pieces, CeilDiv, BlockOfLast;
    PiecesCover(c, n, size);
    PieceEnds(c, n, size, |p.chunks| - 1);
    BlockOfLastIs(c + n, size, Quot(c, size) + |p.chunks| - 1);
  }

  lemma PiecePlanExists(d: nat, table: seq<nat>, size: nat, c: nat, n: nat) returns (p: Plan)
    requires size > 0 && n > 0 && CeilDiv(c + n, size) <= |table|
    ensures Continues(p, d, size, c, n) && OnTable(p, table, size, c) && p.Count() == n
  {
    var q, chunks := Quot(c, size), Pieces(c, n, size);
    PiecesCover(c, n, size);
    PieceEnds(c, n, size, |chunks| - 1);
    QuotientMonotone(c + size - 1, c + n + size - 1, size);
    BlocksCover(c, size);
    assert CeilDiv(c, size) <= CeilDiv(c + n, size) && (c > 0 ==> BlockOfLast(c, size) < |table|);
    hide Pieces, CeilDiv, BlockOfLast, Quot;
    p := Plan(d, Bases(0, 0, 0, 0, 0), false, if c == 0 then None else Some(table[BlockOfLast(c, size)]), chunks,
              table[q..q + |chunks|]);
  }

  /** The cuts of a prompt of |toks| tokens, with a block table that reaches the last one. */
  ghost predicate Cuttable(toks: seq<Token>, table: seq<nat>, size: nat, cuts: seq<nat>, space: nat) {
    && size > 0 && (forall j | 0 <= j < |table| :: table[j] < space)
    && cuts != [] && cuts[0] == 0 && cuts[|cuts| - 1] <= |toks|
    && (forall i, j | 0 <= i < j < |cuts| :: cuts[i] < cuts[j])
    && CeilDiv(cuts[|cuts| - 1], size) <= |table|
  }

  lemma CuttablePrefix(toks: seq<Token>, table: seq<nat>, size: nat, cuts: seq<nat>, space: nat)
    requires Cuttable(toks, table, size, cuts, space) && |cuts| > 1
    ensures var n := |cuts| - 1;
            && Cuttable(toks, table, size, cuts[..n], space) && size > 0
            && cuts[n - 1] < cuts[n] <= |toks| && cuts[..n][n - 1] == cuts[n - 1]
            && cuts[n - 1] + (cuts[n] - cuts[n - 1]) == cuts[n]
            && CeilDiv(cuts[n], size) <= |table| && cuts[0] == 0 && forall j | 0 <= j < |table| :: table[j] < space
  {
    var n := |cuts| - 1;
    QuotientMonotone(cuts[n - 1] + size - 1, cuts[n] + size - 1, size);
    hide Quot;
  }

  /** All pieces use one table, with cells in the buffers. */
  ghost predicate AllOnTable(s: Schedule, table: seq<nat>) {
    s.size > 0 && |s.plans| < |s.cuts| && forall k | 0 <= k < |s.plans| :: OnTable(s.plans[k], table, s.size, s.cuts[k])
  }

  /** The first piece finds this buffer, the others buffers of the same size. */
  ghost predicate StartsWith(trace: seq<seq<Vec>>, states: seq<Vec>) {
    (|trace| > 0 ==> trace[0] == states) && forall k | 0 <= k < |trace| :: |trace[k]| == |states|
  }

  /** The pieces between any increasing cuts can be scheduled, and scanned one after the other from any cache,
      with any block table; blocks may even share cells. */
  lemma {:induction false} SchedulesExist(
    ar: Arithmetic, d: nat, toks: seq<Token>, table: seq<nat>, size: nat, cuts: seq<nat>, states: seq<Vec>)
    returns (s: Schedule, trace: seq<seq<Vec>>)
    requires Cuttable(toks, table, size, cuts, |states|)
    ensures s.d == d && s.toks == toks && s.size == size && s.cuts == cuts && AllOnTable(s, table)
    ensures Traces(ar, s, trace) && StartsWith(trace, states)
    ensures |s.plans| == |trace| == |cuts| - 1
    decreases |cuts|
  {
    var n := |cuts| - 1;
    hide Distinct, Continues, OnTable, AllOnTable, CeilDiv, Traces, StartsWith;
    if n == 0 {
      s, trace := Schedule(d, toks, size, cuts, []), [];
      NothingScheduled(ar, s, table, states);
    } else {
      var c := cuts[n - 1];
      CuttablePrefix(toks, table, size, cuts, |states|);
      hide Cuttable;
      var before, done := SchedulesExist(ar, d, toks, table, size, cuts[..n], states);
      var p := PiecePlanExists(d, table, size, c, cuts[n] - c);
      s, trace := ScheduleNext(ar, before, done, table, states, p, cuts[n]);
      assert cuts[..n] + [cuts[n]] == cuts;
    }
  }

  lemma NothingScheduled(ar: Arithmetic, s: Schedule, table: seq<nat>, states: seq<Vec>)
    requires s.size > 0 && s.plans == [] && |s.cuts| == 1
    ensures Traces(ar, s, []) && AllOnTable(s, table) && StartsWith([], states)
  {
  }

  /** s' is s with one more piece. */
  ghost predicate Extends(s': Schedule, s: Schedule, p: Plan, cut: nat) {
    && s'.d == s.d && s'.toks == s.toks && s'.size == s.size
    && s'.cuts == s.cuts + [cut] && s'.plans == s.plans + [p]
  }

  lemma PieceStays(s: Schedule, s': Schedule, p: Plan, cut: nat, k: nat, q: Plan, space: nat)
    requires Extends(s', s, p, cut) && s.PieceAt(k, q, space)
    ensures s'.PieceAt(k, q, space)
  {
    hide Continues;
  }

  lemma LeadsStays(ar: Arithmetic, s: Schedule, s': Schedule, p: Plan, cut: nat, k: nat, q: Plan, next: Plan,
                   found: seq<Vec>, nextFound: seq<Vec>)
    requires Extends(s', s, p, cut) && Leads(ar, s, k, q, next, found, nextFound)
    ensures Leads(ar, s', k, q, next, found, nextFound)
  {
    assert s.PieceAt(k, q, |found|);
    HasCells(q, s.d, s.size, s.cuts[k], s.cuts[k + 1] - s.cuts[k]);
    hide Continues, AfterPiece;
    PieceStays(s, s', p, cut, k, q, |found|);
  }

  lemma HasCells(p: Plan, d: nat, size: nat, c: nat, n: nat)
    requires Continues(p, d, size, c, n)
    ensures |p.cells| == |p.chunks| && (p.load.Some? <==> c > 0)
  {
  }

  lemma OnTableFits(p: Plan, table: seq<nat>, d: nat, size: nat, c: nat, n: nat, space: nat)
    requires Continues(p, d, size, c, n) && OnTable(p, table, size, c)
    requires forall j | 0 <= j < |table| :: table[j] < space
    ensures c > 0 ==> BlockOfLast(c, size) < |table| && p.load == Some(table[BlockOfLast(c, size)])
    ensures (p.load.Some? ==> p.load.value < space) && forall j | 0 <= j < |p.cells| :: p.cells[j] < space
  {
    hide BlockOfLast, Quot, Pieces;
  }

  /** On one table every piece leaves its last state where the next one starts. */
  lemma NextFound(ar: Arithmetic, s: Schedule, k: nat, q: Plan, next: Plan, table: seq<nat>, n: nat, found: seq<Vec>)
    returns (left: seq<Vec>)
    requires s.PieceAt(k, q, |found|) && s.size > 0 && OnTable(q, table, s.size, s.cuts[k])
    requires Continues(next, s.d, s.size, s.cuts[k + 1], n) && OnTable(next, table, s.size, s.cuts[k + 1])
    requires forall j | 0 <= j < |table| :: table[j] < |found|
    ensures |left| == |found| && Leads(ar, s, k, q, next, found, left)
  {
    var c, cut := s.cuts[k], s.cuts[k + 1];
    HasCells(q, s.d, s.size, c, cut - c);
    LastOnTable(q, table, s.d, s.size, c, cut - c);
    OnTableFits(next, table, s.d, s.size, cut, n, |found|);
    left := AfterPiece(ar, q, s.toks[c..cut], found);
    hide Continues, AfterPiece, OnTable, BlockOfLast, Quot;
  }

  lemma TracesNext(ar: Arithmetic, s: Schedule, trace: seq<seq<Vec>>, s': Schedule, p: Plan, cut: nat, found: seq<Vec>)
    requires Traces(ar, s, trace) && Extends(s', s, p, cut) && s'.PieceAt(|s.plans|, p, |found|)
    requires |s.plans| == 0 ==> s.cuts[0] <= |s.toks| && StartsAfter(ar, p, s.toks, s.cuts[0], found)
    requires |s.plans| > 0 ==>
               var k := |s.plans| - 1; Leads(ar, s, k, s.plans[k], p, trace[k], found)
    ensures Traces(ar, s', trace + [found])
  {
    hide Schedule.PieceAt, Leads, StartsAfter;
    var n, trace' := |s.plans|, trace + [found];
    forall k | 0 <= k < n
      ensures s'.PieceAt(k, s.plans[k], |trace'[k]|)
    {
      PieceStays(s, s', p, cut, k, s.plans[k], |trace[k]|);
    }
    forall k | 0 <= k < n
      ensures Leads(ar, s', k, s'.plans[k], s'.plans[k + 1], trace'[k], trace'[k + 1])
    {
      LeadsStays(ar, s, s', p, cut, k, s.plans[k], s'.plans[k + 1], trace[k], trace'[k + 1]);
    }
  }

  lemma NewPiece(s: Schedule, s': Schedule, table: seq<nat>, p: Plan, cut: nat, space: nat)
    requires Extends(s', s, p, cut) && AllOnTable(s, table) && |s.cuts| == |s.plans| + 1
    requires forall j | 0 <= j < |table| :: table[j] < space
    requires var c := s.cuts[|s.plans|];
      && c < cut <= |s.toks| && Continues(p, s.d, s.size, c, cut - c) && OnTable(p, table, s.size, c)
      && p.Count() == cut - c
    ensures s'.PieceAt(|s.plans|, p, space) && AllOnTable(s', table)
  {
    OnTableFits(p, table, s.d, s.size, s.cuts[|s.plans|], cut - s.cuts[|s.plans|], space);
    hide OnTable, Continues;
  }

  lemma FreshStart(ar: Arithmetic, p: Plan, d: nat, toks: seq<Token>, size: nat, n: nat, table: seq<nat>,
                   states: seq<Vec>)
    requires Continues(p, d, size, 0, n) && OnTable(p, table, size, 0)
    requires forall j | 0 <= j < |table| :: table[j] < |states|
    ensures StartsAfter(ar, p, toks, 0, states)
  {
    OnTableFits(p, table, d, size, 0, n, |states|);
    HasCells(p, d, size, 0, n);
    hide Continues, OnTable, StateAfter;
  }

  /** A schedule and its trace, with one more piece. */
  lemma ScheduleNext(ar: Arithmetic, s: Schedule, trace: seq<seq<Vec>>, table: seq<nat>, states: seq<Vec>, p: Plan,
                     cut: nat)
    returns (s': Schedule, trace': seq<seq<Vec>>)
    requires Traces(ar, s, trace) && AllOnTable(s, table) && StartsWith(trace, states)
    requires forall j | 0 <= j < |table| :: table[j] < |states|
    requires |s.cuts| == |s.plans| + 1 && s.cuts[0] == 0 && s.cuts[|s.plans|] < cut <= |s.toks| && s.size > 0
    requires var c := s.cuts[|s.plans|];
             Continues(p, s.d, s.size, c, cut - c) && OnTable(p, table, s.size, c) && p.Count() == cut - c
    ensures s'.d == s.d && s'.toks == s.toks && s'.size == s.size && s'.cuts == s.cuts + [cut] && AllOnTable(s', table)
    ensures Traces(ar, s', trace') && StartsWith(trace', states) && |trace'| == |s'.plans| == |s.plans| + 1
  {
    hide Continues, OnTable, AllOnTable, Schedule.PieceAt, Leads, StartsAfter, Plan.Count;
    var n := |s.plans|;
    s' := s.(cuts := s.cuts + [cut], plans := s.plans + [p]);
    assert Extends(s', s, p, cut);
    var found := states;
    NewPiece(s, s', table, p, cut, |states|);
    if n == 0 {
      FreshStart(ar, p, s.d, s.toks, s.size, cut, table, states);
    } else {
      PieceOnTable(s, table, n - 1);
      assert s.PieceAt(n - 1, s.plans[n - 1], |trace[n - 1]|);
      found := NextFound(ar, s, n - 1, s.plans[n - 1], p, table, cut - s.cuts[n], trace[n - 1]);
    }
    hide Traces;
    TracesNext(ar, s, trace, s', p, cut, found);
    trace' := trace + [found];
  }

  lemma PieceOnTable(s: Schedule, table: seq<nat>, k: nat)
    requires AllOnTable(s, table) && k < |s.plans|
    ensures s.size > 0 && k < |s.cuts| && OnTable(s.plans[k], table, s.size, s.cuts[k])
  {
    hide OnTable;
  }

  // ---------------------------------------------------------------------------------------
  // Without prefix caching
  // ---------------------------------------------------------------------------------------

  lemma SmallQuotient(c: nat, size: nat)
    requires c < size
    ensures Quot(c, size) == 0 && Rem(c, size) == c
  {
    ScaleOne(size);
    QuotientUnique(c, size, 0, c);
  }

  lemma OnePiece(c: nat, n: nat, size: nat)
    requires n > 0 && c + n <= size
    ensures Pieces(c, n, size) == [n]
  {
    SmallQuotient(c, size);
    hide Rem;
    assert Pieces(c + n, 0, size) == [];
  }

  /** A plan read off a launch without prefix caching is one of a single block that is longer than the prompt: it
      loads from the cell of the sequence and stores there. */
  lemma PlainLaunchContinues(l: Launch, i: nat, d: nat, size: nat, c: nat)
    requires l.Readable() && i < l.batch && d < l.dim && l.Slotted(i) && l.prefixCache.None? && l.SeqLen(i) > 0
    requires (l.HasInitial(i) <==> c > 0) && c + l.SeqLen(i) <= size
    ensures
      var p, cell := PlanOf(l, i, d), l.StateAddress(l.LoadSlot(i), d);
      Continues(p, d, size, c, l.SeqLen(i)) && p.cells == [cell] && (c > 0 ==> p.load == Some(cell))
  {
    PlanParts(l, i, d);
    OnePiece(c, l.SeqLen(i), size);
    assert l.Chunks(i) == [l.SeqLen(i)] && l.StoreSlot(i, 0) == l.LoadSlot(i);
    hide Launch.Readable, Launch.Chunks, Launch.StoreSlot, Launch.LoadSlot, Launch.HasInitial, PlanOf, Pieces;
  }
}
