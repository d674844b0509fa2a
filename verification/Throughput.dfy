/** Greedy batching of benchmark requests (overlay/vllm/benchmarks/throughput.py). */
module Throughput {

  datatype Request = Request(prompt: string, promptLen: nat, outputLen: nat)

  /** A call of the model: the batch and its `max_new_tokens`. */
  datatype Generate = Generate(batch: seq<Request>, maxNewTokens: nat)

  const MAX_TOKENS := 2048

  function Max(a: nat, b: nat): nat { if a < b then b else a }

  function MaxPrompt(batch: seq<Request>): nat {
    if batch == [] then 0 else Max(MaxPrompt(batch[..|batch| - 1]), batch[|batch| - 1].promptLen)
  }

  function MaxOutput(batch: seq<Request>): nat {
    if batch == [] then 0 else Max(MaxOutput(batch[..|batch| - 1]), batch[|batch| - 1].outputLen)
  }

  /** What a batch may hold: one request of any length, or several within both limits. */
  predicate Fits(batch: seq<Request>, maxBatchSize: int) {
    && batch != []
    && (|batch| >= 2 ==> |batch| <= maxBatchSize && MaxPrompt(batch) + MaxOutput(batch) <= MAX_TOKENS)
  }

  /** A batch fits when it has one request, or no more than allowed and no prompt and output of two of its requests
      are too long together. */
  lemma FitsSays(batch: seq<Request>, maxBatchSize: int)
    ensures Fits(batch, maxBatchSize) <==>
            || |batch| == 1
            || (|batch| > 1 && |batch| <= maxBatchSize && forall i, j | 0 <= i < |batch| && 0 <= j < |batch| ::
                  batch[i].promptLen + batch[j].outputLen <= 2048)
  {
    if batch != [] {
      var p, o := LongestOf(batch);
      forall i | 0 <= i < |batch|
        ensures batch[i].promptLen <= MaxPrompt(batch) && batch[i].outputLen <= MaxOutput(batch)
      {
        MaxBounds(batch, i);
      }
    }
  }

  /** The longest prompt and the longest output of a batch are those of some request. */
  lemma {:induction false} LongestOf(batch: seq<Request>) returns (p: nat, o: nat)
    requires batch != []
    ensures p < |batch| && batch[p].promptLen == MaxPrompt(batch)
    ensures o < |batch| && batch[o].outputLen == MaxOutput(batch)
    decreases |batch|
  {
    var n := |batch| - 1;
    if n == 0 {
      p, o := 0, 0;
    } else {
      p, o := LongestOf(batch[..n]);
      if batch[n].promptLen >= MaxPrompt(batch[..n]) { p := n; }
      if batch[n].outputLen >= MaxOutput(batch[..n]) { o := n; }
    }
  }

  function Flatten(batches: seq<seq<Request>>): seq<Request> {
    if batches == [] then [] else Flatten(batches[..|batches| - 1]) + batches[|batches| - 1]
  }

  /** An order-preserving partition into batches that fit. */
  ghost predicate IsPartition(batches: seq<seq<Request>>, requests: seq<Request>, maxBatchSize: int) {
    Flatten(batches) == requests && forall b <- batches :: Fits(b, maxBatchSize)
  }

  lemma MaxOfMore(batch: seq<Request>, r: Request)
    ensures MaxPrompt(batch + [r]) == Max(MaxPrompt(batch), r.promptLen)
    ensures MaxOutput(batch + [r]) == Max(MaxOutput(batch), r.outputLen)
  {
    assert (batch + [r])[..|batch|] == batch;
  }

  lemma FlattenMore(batches: seq<seq<Request>>, b: seq<Request>)
    ensures Flatten(batches + [b]) == Flatten(batches) + b
  {
    assert (batches + [b])[..|batches|] == batches;
  }

  // ---------------------------------------------------------------------------------------
  // A part of a batch that fits fits
  // ---------------------------------------------------------------------------------------

  lemma {:induction false} MaxBounds(batch: seq<Request>, i: nat)
    requires i < |batch|
    ensures batch[i].promptLen <= MaxPrompt(batch) && batch[i].outputLen <= MaxOutput(batch)
    decreases |batch|
  {
    if i < |batch| - 1 { MaxBounds(batch[..|batch| - 1], i); }
  }

  lemma {:induction false} MaxOfPart(batch: seq<Request>, lo: nat, hi: nat)
    requires lo <= hi <= |batch|
    ensures MaxPrompt(batch[lo..hi]) <= MaxPrompt(batch) && MaxOutput(batch[lo..hi]) <= MaxOutput(batch)
    decreases hi
  {
    if lo < hi {
      MaxOfPart(batch, lo, hi - 1);
      MaxBounds(batch, hi - 1);
      MaxOfMore(batch[lo..hi - 1], batch[hi - 1]);
      assert batch[lo..hi] == batch[lo..hi - 1] + [batch[hi - 1]];
    }
  }

  lemma PartFits(batch: seq<Request>, lo: nat, hi: nat, maxBatchSize: int)
    requires Fits(batch, maxBatchSize) && lo < hi <= |batch|
    ensures Fits(batch[lo..hi], maxBatchSize)
  {
    MaxOfPart(batch, lo, hi);
    hide MaxPrompt, MaxOutput;
  }

  // ---------------------------------------------------------------------------------------
  // Where batches end
  // ---------------------------------------------------------------------------------------

  function End(batches: seq<seq<Request>>, k: nat): nat
    requires k <= |batches|
  {
    |Flatten(batches[..k])|
  }

  lemma {:induction false} FlattenPrefix(batches: seq<seq<Request>>, k: nat)
    requires k <= |batches|
    ensures End(batches, k) <= |Flatten(batches)| && Flatten(batches[..k]) == Flatten(batches)[..End(batches, k)]
    decreases |batches|
  {
    if k == |batches| {
      assert batches[..k] == batches;
    } else {
      var rest := batches[..|batches| - 1];
      FlattenPrefix(rest, k);
      assert rest[..k] == batches[..k];
    }
  }

  /** A batch is what lies between two ends. */
  lemma BatchBetweenEnds(batches: seq<seq<Request>>, k: nat)
    requires k < |batches|
    ensures End(batches, k + 1) == End(batches, k) + |batches[k]| <= |Flatten(batches)|
    ensures batches[k] == Flatten(batches)[End(batches, k)..End(batches, k + 1)]
  {
    FlattenPrefix(batches, k);
    FlattenPrefix(batches, k + 1);
    assert batches[..k + 1] == batches[..k] + [batches[k]];
    FlattenMore(batches[..k], batches[k]);
    var all := Flatten(batches);
    assert batches[k] == (Flatten(batches[..k]) + batches[k])[End(batches, k)..];
    assert all[..End(batches, k + 1)][End(batches, k)..] == all[End(batches, k)..End(batches, k + 1)];
  }

  // ---------------------------------------------------------------------------------------
  // Greedy is optimal
  // ---------------------------------------------------------------------------------------

  /** No batch could have taken the next request too. */
  ghost predicate Greedy(batches: seq<seq<Request>>, maxBatchSize: int) {
    forall k | 0 <= k < |batches| - 1 :: NoRoom(batches, k, maxBatchSize)
  }

  predicate NoRoom(batches: seq<seq<Request>>, k: nat, maxBatchSize: int)
    requires k + 1 < |batches|
  {
    batches[k + 1] != [] && !Fits(batches[k] + [batches[k + 1][0]], maxBatchSize)
  }

  /** The first k batches of any partition cover no more than the first k greedy ones. */
  lemma {:induction false} GreedyStaysAhead(
    greedy: seq<seq<Request>>, other: seq<seq<Request>>, requests: seq<Request>, maxBatchSize: int, k: nat)
    requires IsPartition(greedy, requests, maxBatchSize) && Greedy(greedy, maxBatchSize)
    requires IsPartition(other, requests, maxBatchSize) && k <= |other| && k < |greedy|
    ensures End(other, k) <= End(greedy, k)
    decreases k
  {
    hide Flatten, Fits, End, Greedy;
    if k == 0 {
      NoneEndsFirst(greedy, other);
    } else {
      GreedyStaysAhead(greedy, other, requests, maxBatchSize, k - 1);
      BatchOfPartition(other, requests, maxBatchSize, k - 1);
      var lo, hi := End(greedy, k - 1), End(greedy, k) + 1;
      NextDoesNotFit(greedy, requests, maxBatchSize, k);
      if End(other, k) >= hi {
        CannotReach(requests, End(other, k - 1), lo, hi, End(other, k), maxBatchSize);
      }
    }
  }

  lemma NoneEndsFirst(one: seq<seq<Request>>, other: seq<seq<Request>>)
    ensures End(one, 0) == End(other, 0) == 0
  {
  }

  lemma BatchOfPartition(batches: seq<seq<Request>>, requests: seq<Request>, maxBatchSize: int, k: nat)
    requires IsPartition(batches, requests, maxBatchSize) && k < |batches|
    ensures End(batches, k) <= End(batches, k + 1) <= |requests|
    ensures Fits(requests[End(batches, k)..End(batches, k + 1)], maxBatchSize)
  {
    hide Flatten, Fits, End;
    BatchBetweenEnds(batches, k);
    assert batches[k] in batches;
  }

  /** The requests of a greedy batch and the one after it do not fit together. */
  lemma NextDoesNotFit(greedy: seq<seq<Request>>, requests: seq<Request>, maxBatchSize: int, k: nat)
    requires IsPartition(greedy, requests, maxBatchSize) && Greedy(greedy, maxBatchSize) && 0 < k < |greedy|
    ensures End(greedy, k - 1) < End(greedy, k) + 1 <= |requests|
    ensures !Fits(requests[End(greedy, k - 1)..End(greedy, k) + 1], maxBatchSize)
  {
    assert NoRoom(greedy, k - 1, maxBatchSize);
    hide Flatten, Fits, End, Greedy;
    BatchBetweenEnds(greedy, k - 1);
    BatchBetweenEnds(greedy, k);
    var lo, mid := End(greedy, k - 1), End(greedy, k);
    assert requests[lo..mid + 1] == greedy[k - 1] + [greedy[k][0]];
  }

  lemma CannotReach(requests: seq<Request>, start: nat, lo: nat, hi: nat, end: nat, maxBatchSize: int)
    requires start <= lo < hi <= end <= |requests| && !Fits(requests[lo..hi], maxBatchSize)
    ensures !Fits(requests[start..end], maxBatchSize)
  {
    var part, mine := requests[start..end], requests[lo..hi];
    forall i | 0 <= i < hi - lo ensures part[lo - start..hi - start][i] == mine[i] {
      assert part[lo - start..hi - start][i] == part[lo - start + i] == requests[lo + i];
    }
    assert part[lo - start..hi - start] == mine;
    hide Fits;
    if Fits(requests[start..end], maxBatchSize) {
      PartFits(requests[start..end], lo - start, hi - start, maxBatchSize);
    }
  }

  /** No order-preserving partition under the same limits has fewer batches. */
  lemma GreedyIsOptimal(greedy: seq<seq<Request>>, other: seq<seq<Request>>, requests: seq<Request>, maxBatchSize: int)
    requires IsPartition(greedy, requests, maxBatchSize) && Greedy(greedy, maxBatchSize)
    requires IsPartition(other, requests, maxBatchSize)
    ensures |greedy| <= |other|
  {
    forall k | 0 <= k < |greedy| ensures |greedy[k]| > 0 { assert greedy[k] in greedy; }
    if |other| < |greedy| {
      var n := |other|;
      GreedyStaysAhead(greedy, other, requests, maxBatchSize, n);
      assert other[..n] == other;
      BatchBetweenEnds(greedy, n);
    }
  }

  // ---------------------------------------------------------------------------------------
  // The loop
  // ---------------------------------------------------------------------------------------

  function Batches(calls: seq<Generate>): seq<seq<Request>> {
    seq(|calls|, i requires 0 <= i < |calls| => calls[i].batch)
  }

  /** Between two requests: the closed batches and the open one hold the first i requests, and an open batch
      has room for the next. */
  ghost predicate Batched(closed: seq<seq<Request>>, open_: seq<Request>, requests: seq<Request>, i: nat,
      maxBatchSize: int) {
    && i <= |requests|
    && IsPartition(closed, Flatten(closed), maxBatchSize) && Greedy(closed, maxBatchSize)
    && Flatten(closed) + open_ == requests[..i]
    && (open_ != [] ==> i < |requests| && Fits(open_ + [requests[i]], maxBatchSize))
    && (closed != [] && i < |requests| ==>
          !Fits(closed[|closed| - 1] + [if open_ == [] then requests[i] else open_[0]], maxBatchSize))
  }

  ghost predicate Opened(closed: seq<seq<Request>>, open_: seq<Request>, requests: seq<Request>, i: nat,
      maxBatchSize: int) {
    && i <= |requests|
    && IsPartition(closed, Flatten(closed), maxBatchSize) && Greedy(closed, maxBatchSize)
    && Flatten(closed) + open_ == requests[..i]
    && Fits(open_, maxBatchSize)
    && (closed != [] ==> !Fits(closed[|closed| - 1] + [open_[0]], maxBatchSize))
  }

  lemma TakeOne(closed: seq<seq<Request>>, open_: seq<Request>, requests: seq<Request>, i: nat, maxBatchSize: int)
    requires i < |requests| && Batched(closed, open_, requests, i, maxBatchSize)
    ensures Opened(closed, open_ + [requests[i]], requests, i + 1, maxBatchSize)
  {
    assert requests[..i + 1] == requests[..i] + [requests[i]];
    assert Flatten(closed) + (open_ + [requests[i]]) == Flatten(closed) + open_ + [requests[i]];
  }

  lemma CloseBatch(closed: seq<seq<Request>>, open_: seq<Request>, requests: seq<Request>, i: nat, maxBatchSize: int)
    requires Opened(closed, open_, requests, i, maxBatchSize)
    requires i < |requests| ==> !Fits(open_ + [requests[i]], maxBatchSize)
    ensures Batched(closed + [open_], [], requests, i, maxBatchSize)
  {
    var more := closed + [open_];
    FlattenMore(closed, open_);
    forall k | 0 <= k < |more| - 1
      ensures NoRoom(more, k, maxBatchSize)
    {
      if k < |closed| - 1 { assert NoRoom(closed, k, maxBatchSize); }
    }
    assert Flatten(more) + [] == Flatten(more);
  }

  /** The test for one more request. */
  method CanTake(batch: seq<Request>, maxPromptLen: nat, maxOutputLen: nat, next: Request, maxBatchSize: int)
    returns (room: bool)
    requires batch != [] && maxPromptLen == MaxPrompt(batch) && maxOutputLen == MaxOutput(batch)
    ensures room == Fits(batch + [next], maxBatchSize)
  {
    MaxOfMore(batch, next);
    hide MaxPrompt, MaxOutput;
    if |batch| < maxBatchSize {
      room := Max(maxPromptLen, next.promptLen) + Max(maxOutputLen, next.outputLen) <= MAX_TOKENS;
    } else {
      room := false;
    }
  }

  /** The batching loop of `_run_hf_requests`: the calls partition the requests within the limits, into as few
      batches as any, and each call generates as many tokens as its batch expects at most. */
  method RunHfRequests(requests: seq<Request>, maxBatchSize: int) returns (calls: seq<Generate>)
    ensures IsPartition(Batches(calls), requests, maxBatchSize)
    ensures forall c <- calls :: c.maxNewTokens == MaxOutput(c.batch)
    ensures forall c <- calls :: IsLargestOutput(c.batch, c.maxNewTokens)
    ensures forall other :: IsPartition(other, requests, maxBatchSize) ==> |calls| <= |other|
  {
    calls := [];
    var batch: seq<Request> := [];
    var maxPromptLen, maxOutputLen := 0, 0;
    assert Batched(Batches(calls), batch, requests, 0, maxBatchSize);
    assert MaxPrompt([]) == MaxOutput([]) == 0;
    hide Batched, Opened, MaxPrompt, MaxOutput, Fits, Batches, Flatten, Greedy, IsPartition;
    for i := 0 to |requests|
      invariant maxPromptLen == MaxPrompt(batch) && maxOutputLen == MaxOutput(batch)
      invariant Batched(Batches(calls), batch, requests, i, maxBatchSize)
      invariant forall c <- calls :: c.maxNewTokens == MaxOutput(c.batch)
    {
      MaxOfMore(batch, requests[i]);
      TakeOne(Batches(calls), batch, requests, i, maxBatchSize);
      batch := batch + [requests[i]];
      maxPromptLen := Max(maxPromptLen, requests[i].promptLen);
      maxOutputLen := Max(maxOutputLen, requests[i].outputLen);
      if i != |requests| - 1 {
        var room := CanTake(batch, maxPromptLen, maxOutputLen, requests[i + 1], maxBatchSize);
        if room {
          KeepOpen(Batches(calls), batch, requests, i + 1, maxBatchSize);
          continue;
        }
      }
      CloseBatch(Batches(calls), batch, requests, i + 1, maxBatchSize);
      BatchesMore(calls, Generate(batch, maxOutputLen));
      calls := calls + [Generate(batch, maxOutputLen)];
      batch := [];
      maxPromptLen, maxOutputLen := 0, 0;
    }
    AllBatched(Batches(calls), batch, requests, maxBatchSize);
    BatchesSize(calls);
    forall c | c in calls
      ensures IsLargestOutput(c.batch, c.maxNewTokens)
    {
      BatchNotEmpty(calls, c, requests, maxBatchSize);
      OutputIsLargest(c.batch);
    }
    forall other | IsPartition(other, requests, maxBatchSize)
      ensures |calls| <= |other|
    {
      GreedyIsOptimal(Batches(calls), other, requests, maxBatchSize);
    }
  }

  /** The largest expected output of the batch. */
  ghost predicate IsLargestOutput(batch: seq<Request>, n: nat) {
    && (forall i | 0 <= i < |batch| :: batch[i].outputLen <= n)
    && (exists i :: 0 <= i < |batch| && batch[i].outputLen == n)
  }

  lemma OutputIsLargest(batch: seq<Request>)
    requires batch != []
    ensures IsLargestOutput(batch, MaxOutput(batch))
  {
    var p, o := LongestOf(batch);
    forall i | 0 <= i < |batch| ensures batch[i].outputLen <= MaxOutput(batch) { MaxBounds(batch, i); }
  }

  lemma BatchNotEmpty(calls: seq<Generate>, c: Generate, requests: seq<Request>, maxBatchSize: int)
    requires c in calls && IsPartition(Batches(calls), requests, maxBatchSize)
    ensures c.batch != []
  {
    var k :| 0 <= k < |calls| && calls[k] == c;
    assert Batches(calls)[k] == c.batch && Batches(calls)[k] in Batches(calls);
  }

  lemma BatchesMore(calls: seq<Generate>, call: Generate)
    ensures Batches(calls + [call]) == Batches(calls) + [call.batch]
  {
  }

  lemma BatchesSize(calls: seq<Generate>)
    ensures |Batches(calls)| == |calls|
  {
  }

  lemma AllBatched(closed: seq<seq<Request>>, open_: seq<Request>, requests: seq<Request>, maxBatchSize: int)
    requires Batched(closed, open_, requests, |requests|, maxBatchSize)
    ensures IsPartition(closed, requests, maxBatchSize) && Greedy(closed, maxBatchSize)
  {
    assert requests[..|requests|] == requests;
    assert Flatten(closed) + [] == Flatten(closed);
  }

  lemma KeepOpen(closed: seq<seq<Request>>, open_: seq<Request>, requests: seq<Request>, i: nat, maxBatchSize: int)
    requires Opened(closed, open_, requests, i, maxBatchSize) && i < |requests|
    requires Fits(open_ + [requests[i]], maxBatchSize)
    ensures Batched(closed, open_, requests, i, maxBatchSize)
  {
  }
}
