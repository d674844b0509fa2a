/** Request outputs as objects that are merged in place (overlay/vllm/outputs.py). */
module RequestOutputs {
  import opened Wrappers
  import opened Logprobs
  import opened Outputs

  class CompletionOutput {
    const index: int
    var text: string
    var tokenIds: seq<int>
    var cumulativeLogprob: Option<real>
    var logprobs: Option<seq<OnePosition>>
    var finishReason: Option<string>
    var stopReason: Option<StopReason>

    constructor (c: Completion)
      ensures Value() == c
    {
      index, text, tokenIds, cumulativeLogprob := c.index, c.text, c.tokenIds, c.cumulativeLogprob;
      logprobs, finishReason, stopReason := c.logprobs, c.finishReason, c.stopReason;
    }

    function Value(): Completion
      reads this
    {
      Completion(index, text, tokenIds, cumulativeLogprob, logprobs, finishReason, stopReason)
    }

    /** The merge of outputs with one index; false is the failed assertion. */
    method Merge(next: CompletionOutput) returns (ok: bool)
      requires next != this
      modifies this
      ensures ok == Combine(old(Value()), old(next.Value()), true).Some?
      ensures Value() == if ok then Combine(old(Value()), old(next.Value()), true).value
                         else HalfMerged(old(Value()), old(next.Value()))
      ensures !ok <==> old(logprobs.None? && next.logprobs.Some? && next.logprobs.value != [])
      ensures text == old(text + next.text) && tokenIds == old(tokenIds + next.tokenIds)
      ensures ok ==> cumulativeLogprob == old(next.cumulativeLogprob) && finishReason == old(next.finishReason)
                     && stopReason == old(next.stopReason)
      ensures !ok ==> cumulativeLogprob == old(cumulativeLogprob) && finishReason == old(finishReason)
                      && stopReason == old(stopReason) && logprobs == None
      ensures ok ==> logprobs == if old(next.logprobs.None? || next.logprobs.value == []) then old(logprobs)
                                 else Some(old(logprobs).value + old(next.logprobs).value)
    {
      text := text + next.text;
      tokenIds := tokenIds + next.tokenIds;
      if next.logprobs.Some? && next.logprobs.value != [] {
        if logprobs.None? {
          return false;
        }
        logprobs := Some(logprobs.value + next.logprobs.value);
      }
      cumulativeLogprob := next.cumulativeLogprob;
      finishReason := next.finishReason;
      stopReason := next.stopReason;
      ok := true;
    }
  }

  function Values(outs: seq<CompletionOutput>): (vs: seq<Completion>)
    reads outs
    ensures |vs| == |outs|
  {
    seq(|outs|, i requires 0 <= i < |outs| reads outs => outs[i].Value())
  }

  ghost predicate Separate(outs: seq<CompletionOutput>) { forall i, j | 0 <= i < j < |outs| :: outs[i] != outs[j] }

  ghost function Objects(outs: seq<CompletionOutput>): set<CompletionOutput> { set o | o in outs }

  lemma NothingAdded(a: seq<Completion>, b: seq<Completion>, aggregate: bool)
    ensures AddAll(a, b[..0], aggregate) == Some(a)
  {
  }

  lemma AppendedApart(outs: seq<CompletionOutput>, next: CompletionOutput, objs: set<CompletionOutput>)
    requires Separate(outs) && Objects(outs) <= objs && next !in objs
    ensures Separate(outs + [next]) && Objects(outs + [next]) <= objs + {next}
  {
    forall o | o in outs
      ensures o in objs
    {
      assert o in Objects(outs);
    }
  }

  lemma ReplacedApart(outs: seq<CompletionOutput>, i: nat, next: CompletionOutput, objs: set<CompletionOutput>)
    requires i < |outs| && Separate(outs) && Objects(outs) <= objs && next !in objs
    ensures Separate(outs[i := next]) && Objects(outs[i := next]) <= objs + {next}
  {
    forall o | o in outs
      ensures o in objs
    {
      assert o in Objects(outs);
    }
  }

  class RequestOutput {
    var outputs: seq<CompletionOutput>
    var finished: bool
    var kvTransferParams: Option<map<string, string>>

    constructor (outputs: seq<CompletionOutput>, finished: bool, kvTransferParams: Option<map<string, string>>)
      ensures this.outputs == outputs && this.finished == finished && this.kvTransferParams == kvTransferParams
    {
      this.outputs, this.finished, this.kvTransferParams := outputs, finished, kvTransferParams;
    }

    /** Merges a completion into the one at position i. */
    method MergeAt(i: nat, next: CompletionOutput) returns (ok: bool)
      requires i < |outputs| && Separate(outputs) && next !in outputs
      modifies outputs[i]
      ensures ok == Combine(old(Values(outputs))[i], old(next.Value()), true).Some?
      ensures Values(outputs) ==
              old(Values(outputs))[i := if ok then Combine(old(Values(outputs))[i], old(next.Value()), true).value
                                        else HalfMerged(old(Values(outputs))[i], old(next.Value()))]
    {
      ghost var before := Values(outputs);
      hide Combine, HalfMerged;
      ok := outputs[i].Merge(next);
      assert Values(outputs) == before[i := outputs[i].Value()];
    }

    /** The inner loop of `add`; objs are the completions that outputs may refer to. */
    method AddCompletion(next: CompletionOutput, aggregate: bool, ghost objs: set<CompletionOutput>) returns (ok: bool)
      requires Separate(outputs) && Objects(outputs) <= objs && next !in objs
      modifies this`outputs, objs
      ensures (ok, Values(outputs)) == AddOneOutcome(old(Values(outputs)), old(next.Value()), aggregate)
      ensures Separate(outputs) && Objects(outputs) <= objs + {next}
    {
      assert forall o <- outputs :: o in Objects(outputs);
      ghost var before, x := Values(outputs), next.Value();
      var i := 0;
      while i < |outputs| && outputs[i].index != next.index
        invariant 0 <= i <= |outputs|
        invariant forall k | 0 <= k < i :: outputs[k].index != next.index
      {
        i := i + 1;
      }
      assert forall k | 0 <= k < |outputs| :: before[k].index == outputs[k].index;
      if i == |outputs| {
        AddOneNew(before, x, aggregate);
        AppendedApart(outputs, next, objs);
        hide Separate, Objects, AddOneOutcome;
        outputs := outputs + [next];
        assert Values(outputs) == before + [x];
        return true;
      }
      FindIs(before, x.index, i);
      AddOneAt(before, x, i, aggregate);
      ReplacedApart(outputs, i, next, objs);
      if aggregate {
        assert outputs[i] in Objects(outputs);
        hide Objects, Combine, HalfMerged, Find, AddOne;
        ok := MergeAt(i, next);
      } else {
        outputs := outputs[i := next];
        assert Values(outputs) == before[i := x];
        ok := true;
      }
    }

    /** The first j of the completions to add are in: mine are the completions held before, a and b the values
        that both sides started with. */
    ghost predicate Merging(
      nexts: seq<CompletionOutput>, j: nat, aggregate: bool, mine: set<CompletionOutput>, a: seq<Completion>,
      b: seq<Completion>)
      reads this`outputs, outputs, nexts
    {
      && j <= |nexts| == |b| && Separate(nexts) && mine !! Objects(nexts)
      && AddAll(a, b[..j], aggregate) == Some(Values(outputs))
      && Separate(outputs) && Objects(outputs) <= mine + Objects(nexts[..j])
      && forall k | j <= k < |nexts| :: nexts[k].Value() == b[k]
    }

    lemma MergingStarts(nexts: seq<CompletionOutput>, aggregate: bool)
      requires Separate(outputs) && Separate(nexts) && Objects(outputs) !! Objects(nexts)
      ensures Merging(nexts, 0, aggregate, Objects(outputs), Values(outputs), Values(nexts))
    {
      NothingAdded(Values(outputs), Values(nexts), aggregate);
      hide AddAll;
    }

    lemma MergingEnds(
      nexts: seq<CompletionOutput>, aggregate: bool, mine: set<CompletionOutput>, a: seq<Completion>,
      b: seq<Completion>)
      requires Merging(nexts, |nexts|, aggregate, mine, a, b)
      ensures AddAll(a, b, aggregate) == Some(Values(outputs))
      ensures Separate(outputs) && Objects(outputs) <= mine + Objects(nexts)
    {
      assert b[..|nexts|] == b && nexts[..|nexts|] == nexts;
      hide AddAll, Objects, Separate;
    }

    /** A step of the outer loop of `add`. */
    method AddNth(
      nexts: seq<CompletionOutput>, j: nat, aggregate: bool,
      ghost mine: set<CompletionOutput>, ghost a: seq<Completion>, ghost b: seq<Completion>) returns (ok: bool)
      requires j < |nexts| && Merging(nexts, j, aggregate, mine, a, b)
      modifies this`outputs, mine, nexts
      ensures ok ==> Merging(nexts, j + 1, aggregate, mine, a, b)
      ensures !ok ==> (ok, Values(outputs)) == AddAllOutcome(a, b, aggregate)
      ensures Separate(outputs) && Objects(outputs) <= mine + Objects(nexts)
    {
      hide AddAll, AddOne, Find, Combine, AddAllOutcome, HalfMerged;
      ghost var objs := mine + Objects(nexts[..j]);
      forall k | j <= k < |nexts|
        ensures nexts[k] !in objs
      {
        assert nexts[k] in Objects(nexts);
      }
      assert nexts[..j + 1] == nexts[..j] + [nexts[j]];
      assert b[..j + 1] == b[..j] + [b[j]];
      AddAllLast(a, b[..j], b[j], aggregate);
      ok := AddCompletion(nexts[j], aggregate, objs);
      if !ok { FailureStays(a, b, j, aggregate); }
      assert Objects(nexts[..j + 1]) <= Objects(nexts);
    }

    /** `add`; false is the failed assertion. */
    method Add(next: RequestOutput, aggregate: bool) returns (ok: bool)
      requires next != this && Separate(outputs) && Separate(next.outputs)
      requires Objects(outputs) !! Objects(next.outputs)
      modifies this, outputs, next.outputs
      ensures ok == AddAll(old(Values(outputs)), old(Values(next.outputs)), aggregate).Some?
      ensures ok ==> Values(outputs) == AddAll(old(Values(outputs)), old(Values(next.outputs)), aggregate).value
      ensures (ok, Values(outputs)) == AddAllOutcome(old(Values(outputs)), old(Values(next.outputs)), aggregate)
      ensures Separate(outputs) && Objects(outputs) <= old(Objects(outputs)) + old(Objects(next.outputs))
      ensures finished == (old(finished) || old(next.finished)) && kvTransferParams == old(next.kvTransferParams)
    {
      ghost var a, b, mine := Values(outputs), Values(next.outputs), Objects(outputs);
      assert forall o <- mine :: o in outputs;
      hide AddAll, AddAllOutcome, Merging, Separate, Objects, Values;
      var nexts := next.outputs;
      finished := finished || next.finished;
      kvTransferParams := next.kvTransferParams;
      MergingStarts(nexts, aggregate);
      OutcomeIs(a, b, aggregate);
      for j := 0 to |nexts|
        invariant Merging(nexts, j, aggregate, mine, a, b)
        invariant finished == (old(finished) || old(next.finished)) && kvTransferParams == old(next.kvTransferParams)
      {
        var added := AddNth(nexts, j, aggregate, mine, a, b);
        if !added {
          return false;
        }
      }
      MergingEnds(nexts, aggregate, mine, a, b);
      ok := true;
    }
  }
}
