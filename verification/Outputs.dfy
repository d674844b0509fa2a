/** Merging a stream of request outputs (overlay/vllm/outputs.py). This module holds the values; the objects
    are in RequestOutputs. */
module Outputs {
  import opened Wrappers
  import opened Logprobs

  datatype StopReason = StopToken(id: int) | StopString(text: string)

  datatype Completion = Completion(
    index: int, text: string, tokenIds: seq<int>, cumulativeLogprob: Option<real>, logprobs: Option<seq<OnePosition>>,
    finishReason: Option<string>, stopReason: Option<StopReason>)

  /** Extending logprobs: nothing to add is always possible, otherwise there must be something to extend. */
  function Extended(have: Option<seq<OnePosition>>, more: Option<seq<OnePosition>>): Option<Option<seq<OnePosition>>> {
    if more.None? || more.value == [] then Some(have)
    else if have.None? then None
    else Some(Some(have.value + more.value))
  }

  /** What becomes of a completion when the next one for its index arrives; None is the failed assertion. */
  function Combine(c: Completion, next: Completion, aggregate: bool): Option<Completion> {
    if !aggregate then Some(next)
    else
      var logprobs := Extended(c.logprobs, next.logprobs);
      if logprobs.None? then None
      else Some(Completion(c.index, c.text + next.text, c.tokenIds + next.tokenIds, next.cumulativeLogprob,
                           logprobs.value, next.finishReason, next.stopReason))
  }

  /** The first position with this index. */
  function Find(outs: seq<Completion>, index: int): (i: nat)
    ensures i <= |outs|
    ensures forall k | 0 <= k < i :: outs[k].index != index
    ensures i < |outs| ==> outs[i].index == index
  {
    if outs == [] || outs[0].index == index then 0 else 1 + Find(outs[1..], index)
  }

  function AddOne(outs: seq<Completion>, next: Completion, aggregate: bool): Option<seq<Completion>> {
    var i := Find(outs, next.index);
    if i == |outs| then Some(outs + [next])
    else
      var c := Combine(outs[i], next, aggregate);
      if c.None? then None else Some(outs[i := c.value])
  }

  /** The loop of `add` over the completions of the next output. */
  function AddAll(outs: seq<Completion>, nexts: seq<Completion>, aggregate: bool): Option<seq<Completion>> {
    if nexts == [] then Some(outs)
    else
      var before := AddAll(outs, nexts[..|nexts| - 1], aggregate);
      if before.None? then None else AddOne(before.value, nexts[|nexts| - 1], aggregate)
  }

  lemma AddAllLast(outs: seq<Completion>, nexts: seq<Completion>, x: Completion, aggregate: bool)
    ensures AddAll(outs, nexts + [x], aggregate) ==
            var before := AddAll(outs, nexts, aggregate);
            if before.None? then None else AddOne(before.value, x, aggregate)
  {
    assert (nexts + [x])[..|nexts|] == nexts;
  }

  // ---------------------------------------------------------------------------------------
  // What a failed assertion leaves
  // ---------------------------------------------------------------------------------------

  /** Text and tokens are merged before the assertion on logprobs. */
  function HalfMerged(c: Completion, next: Completion): Completion {
    c.(text := c.text + next.text, tokenIds := c.tokenIds + next.tokenIds)
  }

  /** A merge that fails leaves the text and the tokens of both, and of everything else what was there. */
  lemma HalfMergedIs(c: Completion, next: Completion)
    ensures Combine(c, next, true).None? <==>
              c.logprobs.None? && exists more :: next.logprobs == Some(more) && more != []
    ensures HalfMerged(c, next) == Completion(c.index, c.text + next.text, c.tokenIds + next.tokenIds,
                                              c.cumulativeLogprob, c.logprobs, c.finishReason, c.stopReason)
  {
  }

  /** Whether adding a completion went through, and the outputs it left either way. */
  function AddOneOutcome(outs: seq<Completion>, next: Completion, aggregate: bool): (bool, seq<Completion>) {
    var r, i := AddOne(outs, next, aggregate), Find(outs, next.index);
    if r.Some? then (true, r.value)
    else if i < |outs| then (false, outs[i := HalfMerged(outs[i], next)])
    else (false, outs)
  }

  function AddAllOutcome(outs: seq<Completion>, nexts: seq<Completion>, aggregate: bool): (bool, seq<Completion>) {
    if nexts == [] then (true, outs)
    else
      var (ok, before) := AddAllOutcome(outs, nexts[..|nexts| - 1], aggregate);
      if ok then AddOneOutcome(before, nexts[|nexts| - 1], aggregate) else (false, before)
  }

  lemma {:induction false} OutcomeIs(outs: seq<Completion>, nexts: seq<Completion>, aggregate: bool)
    ensures AddAllOutcome(outs, nexts, aggregate).0 <==> AddAll(outs, nexts, aggregate).Some?
    ensures AddAll(outs, nexts, aggregate).Some? ==>
              AddAllOutcome(outs, nexts, aggregate).1 == AddAll(outs, nexts, aggregate).value
    decreases |nexts|
  {
    if nexts != [] { OutcomeIs(outs, nexts[..|nexts| - 1], aggregate); }
  }

  /** The first failure is final: the outputs stay as it left them. */
  lemma {:induction false} FailureStays(outs: seq<Completion>, nexts: seq<Completion>, j: nat, aggregate: bool)
    requires j < |nexts| && AddAll(outs, nexts[..j], aggregate).Some?
    requires AddOne(AddAll(outs, nexts[..j], aggregate).value, nexts[j], aggregate).None?
    ensures AddAllOutcome(outs, nexts, aggregate) ==
            AddOneOutcome(AddAll(outs, nexts[..j], aggregate).value, nexts[j], aggregate)
    ensures
      var before, next := AddAll(outs, nexts[..j], aggregate).value, nexts[j];
      var i := Find(before, next.index);
      && i < |before|
      && AddAllOutcome(outs, nexts, aggregate) ==
         (false, before[i := before[i].(text := before[i].text + next.text,
                                        tokenIds := before[i].tokenIds + next.tokenIds)])
    decreases |nexts|
  {
    var rest := nexts[..|nexts| - 1];
    if j == |nexts| - 1 {
      OutcomeIs(outs, rest, aggregate);
    } else {
      assert rest[..j] == nexts[..j] && rest[j] == nexts[j];
      FailureStays(outs, rest, j, aggregate);
    }
  }

  ghost predicate DistinctIndices(outs: seq<Completion>) {
    forall i, j | 0 <= i < j < |outs| :: outs[i].index != outs[j].index
  }

  lemma FindIs(outs: seq<Completion>, index: int, i: nat)
    requires i < |outs| && outs[i].index == index && forall k | 0 <= k < i :: outs[k].index != index
    ensures Find(outs, index) == i
  {
  }

  lemma CombineKeepsIndex(c: Completion, next: Completion, aggregate: bool)
    requires c.index == next.index && Combine(c, next, aggregate).Some?
    ensures Combine(c, next, aggregate).value.index == c.index
  {
  }

  /** Indices stay distinct. */
  lemma AddOneKeepsDistinct(outs: seq<Completion>, next: Completion, aggregate: bool)
    requires DistinctIndices(outs) && AddOne(outs, next, aggregate).Some?
    ensures DistinctIndices(AddOne(outs, next, aggregate).value)
  {
    var i := Find(outs, next.index);
    if i < |outs| { CombineKeepsIndex(outs[i], next, aggregate); }
    hide Find, Combine;
  }

  lemma {:induction false} AddAllKeepsDistinct(outs: seq<Completion>, nexts: seq<Completion>, aggregate: bool)
    requires DistinctIndices(outs) && AddAll(outs, nexts, aggregate).Some?
    ensures DistinctIndices(AddAll(outs, nexts, aggregate).value)
    decreases |nexts|
  {
    if nexts != [] {
      AddAllKeepsDistinct(outs, nexts[..|nexts| - 1], aggregate);
      AddOneKeepsDistinct(AddAll(outs, nexts[..|nexts| - 1], aggregate).value, nexts[|nexts| - 1], aggregate);
    }
  }

  // ---------------------------------------------------------------------------------------
  // Grouping
  // ---------------------------------------------------------------------------------------

  /** Combining is associative as far as the right grouping goes through. */
  lemma CombineGroups(p: Completion, y: Completion, x: Completion, aggregate: bool)
    requires Combine(y, x, aggregate).Some?
    requires Combine(p, Combine(y, x, aggregate).value, aggregate).Some?
    ensures Combine(p, y, aggregate).Some?
    ensures Combine(Combine(p, y, aggregate).value, x, aggregate) ==
            Combine(p, Combine(y, x, aggregate).value, aggregate)
  {
    if aggregate {
      assert (p.text + y.text) + x.text == p.text + (y.text + x.text);
      assert (p.tokenIds + y.tokenIds) + x.tokenIds == p.tokenIds + (y.tokenIds + x.tokenIds);
      ExtendedGroups(p.logprobs, y.logprobs, x.logprobs);
    }
  }

  lemma ExtendedGroups(a: Option<seq<OnePosition>>, b: Option<seq<OnePosition>>, c: Option<seq<OnePosition>>)
    requires Extended(b, c).Some? && Extended(a, Extended(b, c).value).Some?
    ensures Extended(a, b).Some? && Extended(Extended(a, b).value, c) == Extended(a, Extended(b, c).value)
  {
    if c.Some? && c.value != [] {
      assert (a.value + b.value) + c.value == a.value + (b.value + c.value);
      assert b.value == [] ==> a.value + (b.value + c.value) == a.value + c.value;
    }
  }

  function Then(outs: Option<seq<Completion>>, next: Completion, aggregate: bool): Option<seq<Completion>> {
    if outs.None? then None else AddOne(outs.value, next, aggregate)
  }

  /** Two completions of one index can be combined before they are added. */
  lemma AddCombined(outs: seq<Completion>, y: Completion, x: Completion, aggregate: bool)
    requires y.index == x.index && Combine(y, x, aggregate).Some?
    requires AddOne(outs, Combine(y, x, aggregate).value, aggregate).Some?
    ensures Then(AddOne(outs, y, aggregate), x, aggregate) == AddOne(outs, Combine(y, x, aggregate).value, aggregate)
  {
    var yx := Combine(y, x, aggregate).value;
    CombineKeepsIndex(y, x, aggregate);
    var i := Find(outs, y.index);
    if i == |outs| {
      hide Combine;
      FindIs(outs + [y], x.index, i);
      assert (outs + [y])[i := yx] == outs + [yx];
    } else {
      CombineGroups(outs[i], y, x, aggregate);
      var py := Combine(outs[i], y, aggregate).value;
      CombineKeepsIndex(outs[i], y, aggregate);
      hide Combine;
      FindIs(outs[i := py], x.index, i);
      var z := Combine(py, x, aggregate);
      if z.Some? { assert outs[i := py][i := z.value] == outs[i := z.value]; }
    }
  }

  lemma AddOneAt(outs: seq<Completion>, x: Completion, i: nat, aggregate: bool)
    requires i < |outs| && Find(outs, x.index) == i
    ensures
      var c := Combine(outs[i], x, aggregate);
      && AddOne(outs, x, aggregate) == (if c.None? then None else Some(outs[i := c.value]))
      && (c.Some? ==> c.value.index == x.index)
  {
    var c := Combine(outs[i], x, aggregate);
    if c.Some? { CombineKeepsIndex(outs[i], x, aggregate); }
    hide Combine, Find;
  }

  function PutBoth(outs: seq<Completion>, i: nat, c: Option<Completion>, j: nat, d: Option<Completion>)
    : Option<seq<Completion>>
    requires i < |outs| && j < |outs|
  {
    if c.None? || d.None? then None else Some(outs[i := c.value][j := d.value])
  }

  lemma PutBothOrder(outs: seq<Completion>, i: nat, c: Option<Completion>, j: nat, d: Option<Completion>)
    requires i < |outs| && j < |outs| && i != j
    ensures PutBoth(outs, i, c, j, d) == PutBoth(outs, j, d, i, c)
  {
    if c.Some? && d.Some? { assert outs[i := c.value][j := d.value] == outs[j := d.value][i := c.value]; }
  }

  lemma AddTwo(outs: seq<Completion>, x: Completion, y: Completion, i: nat, j: nat, aggregate: bool)
    requires i < |outs| && j < |outs| && i != j && Find(outs, x.index) == i && Find(outs, y.index) == j
    ensures Then(AddOne(outs, x, aggregate), y, aggregate) ==
            PutBoth(outs, i, Combine(outs[i], x, aggregate), j, Combine(outs[j], y, aggregate))
  {
    var cx := Combine(outs[i], x, aggregate);
    AddOneAt(outs, x, i, aggregate);
    if cx.Some? {
      hide Combine, AddOne, Find;
      SameFind(outs, outs[i := cx.value], y.index);
      AddOneAt(outs[i := cx.value], y, j, aggregate);
    }
  }

  lemma AddNewAfter(outs: seq<Completion>, x: Completion, y: Completion, i: nat, aggregate: bool)
    requires i < |outs| && Find(outs, x.index) == i && Find(outs, y.index) == |outs|
    ensures
      var c := Combine(outs[i], x, aggregate);
      Then(AddOne(outs, x, aggregate), y, aggregate) == if c.None? then None else Some(outs[i := c.value] + [y])
  {
    var c := Combine(outs[i], x, aggregate);
    AddOneAt(outs, x, i, aggregate);
    if c.Some? {
      hide Combine, Find;
      SameFind(outs, outs[i := c.value], y.index);
    }
  }

  lemma AddAfterNew(outs: seq<Completion>, x: Completion, y: Completion, i: nat, aggregate: bool)
    requires i < |outs| && Find(outs, x.index) == i && Find(outs, y.index) == |outs|
    ensures
      var c := Combine(outs[i], x, aggregate);
      Then(AddOne(outs, y, aggregate), x, aggregate) == if c.None? then None else Some(outs[i := c.value] + [y])
  {
    var c := Combine(outs[i], x, aggregate);
    hide Combine, Find, AddOne;
    AddOneNew(outs, y, aggregate);
    FindLater(outs, y, x.index, i);
    var longer := outs + [y];
    assert longer[i] == outs[i];
    AddOneAt(longer, x, i, aggregate);
    if c.Some? { UpdateThenAppend(outs, i, c.value, y); }
  }

  lemma UpdateThenAppend(outs: seq<Completion>, i: nat, c: Completion, y: Completion)
    requires i < |outs|
    ensures outs[i := c] + [y] == (outs + [y])[i := c]
  {
  }

  lemma AddOneNew(outs: seq<Completion>, y: Completion, aggregate: bool)
    requires Find(outs, y.index) == |outs|
    ensures AddOne(outs, y, aggregate) == Some(outs + [y])
  {
  }

  lemma FindLater(outs: seq<Completion>, y: Completion, index: int, i: nat)
    requires i < |outs| && Find(outs, index) == i
    ensures Find(outs + [y], index) == i
  {
    var b := outs + [y];
    forall k | 0 <= k < i ensures b[k].index != index { assert b[k] == outs[k]; }
    assert b[i] == outs[i];
    FindIs(b, index, i);
  }

  /** A completion whose index is present can trade places with one of another index. */
  lemma AddOthersFirst(outs: seq<Completion>, x: Completion, y: Completion, aggregate: bool)
    requires x.index != y.index && Find(outs, x.index) < |outs|
    ensures Then(AddOne(outs, x, aggregate), y, aggregate) == Then(AddOne(outs, y, aggregate), x, aggregate)
  {
    var i, j := Find(outs, x.index), Find(outs, y.index);
    hide Combine, AddOne, Find, Then, PutBoth;
    if j < |outs| {
      AddTwo(outs, x, y, i, j, aggregate);
      AddTwo(outs, y, x, j, i, aggregate);
      PutBothOrder(outs, i, Combine(outs[i], x, aggregate), j, Combine(outs[j], y, aggregate));
    } else {
      AddNewAfter(outs, x, y, i, aggregate);
      AddAfterNew(outs, x, y, i, aggregate);
    }
  }

  lemma SameFind(a: seq<Completion>, b: seq<Completion>, index: int)
    requires |a| == |b| && forall k | 0 <= k < |a| :: a[k].index == b[k].index
    ensures Find(a, index) == Find(b, index)
  {
    var i := Find(a, index);
    if i < |a| { FindIs(b, index, i); } else { var j := Find(b, index); }
  }

  /** What was once added stays findable. */
  lemma {:induction false} AddedIsFound(outs: seq<Completion>, nexts: seq<Completion>, index: int, aggregate: bool)
    requires AddAll(outs, nexts, aggregate).Some?
    requires Find(outs, index) < |outs| || Find(nexts, index) < |nexts|
    ensures Find(AddAll(outs, nexts, aggregate).value, index) < |AddAll(outs, nexts, aggregate).value|
    decreases |nexts|
  {
    if nexts != [] {
      var rest, x := nexts[..|nexts| - 1], nexts[|nexts| - 1];
      var before := AddAll(outs, rest, aggregate).value;
      if Find(outs, index) == |outs| && x.index != index {
        var i := Find(nexts, index);
        FindIs(rest, index, i);
      }
      if x.index != index { AddedIsFound(outs, rest, index, aggregate); }
      AddOneFinds(before, x, index, aggregate);
    }
  }

  lemma AddOneFinds(outs: seq<Completion>, x: Completion, index: int, aggregate: bool)
    requires AddOne(outs, x, aggregate).Some? && (x.index == index || Find(outs, index) < |outs|)
    ensures Find(AddOne(outs, x, aggregate).value, index) < |AddOne(outs, x, aggregate).value|
  {
    var r, i := AddOne(outs, x, aggregate).value, Find(outs, x.index);
    if i < |outs| {
      CombineKeepsIndex(outs[i], x, aggregate);
      SameFind(outs, r, index);
    } else if x.index == index {
      assert r[|outs|].index == index;
    } else {
      FindIs(r, index, Find(outs, index));
    }
  }

  lemma AddInsideLast(a: seq<Completion>, rest: seq<Completion>, y: Completion, x: Completion, aggregate: bool)
    requires y.index == x.index && Combine(y, x, aggregate).Some?
    requires AddAll(a, rest + [Combine(y, x, aggregate).value], aggregate).Some?
    ensures Then(AddAll(a, rest + [y], aggregate), x, aggregate) ==
            AddAll(a, rest + [Combine(y, x, aggregate).value], aggregate)
  {
    hide Combine, Find, AddOne, AddAll;
    AddAllLast(a, rest, y, aggregate);
    AddAllLast(a, rest, Combine(y, x, aggregate).value, aggregate);
    AddCombined(AddAll(a, rest, aggregate).value, y, x, aggregate);
  }

  lemma AddNewLast(a: seq<Completion>, b: seq<Completion>, x: Completion, aggregate: bool)
    requires Find(b, x.index) == |b|
    ensures AddOne(b, x, aggregate) == Some(b + [x])
    ensures Then(AddAll(a, b, aggregate), x, aggregate) == AddAll(a, b + [x], aggregate)
  {
    AddAllLast(a, b, x, aggregate);
    hide AddAll, Combine;
  }

  /** Adding one more completion to what is added, or to the result. */
  lemma {:induction false} AddInside(a: seq<Completion>, b: seq<Completion>, x: Completion, aggregate: bool)
    requires DistinctIndices(b) && AddOne(b, x, aggregate).Some?
    requires AddAll(a, AddOne(b, x, aggregate).value, aggregate).Some?
    ensures Then(AddAll(a, b, aggregate), x, aggregate) == AddAll(a, AddOne(b, x, aggregate).value, aggregate)
    decreases |b|, 1
  {
    hide Combine, Find, AddOne, AddAll, Then;
    var i := Find(b, x.index);
    if i == |b| {
      AddNewLast(a, b, x, aggregate);
    } else {
      var rest, y := b[..|b| - 1], b[|b| - 1];
      assert b == rest + [y];
      AddOneAt(b, x, i, aggregate);
      if i == |b| - 1 {
        assert b[i := Combine(y, x, aggregate).value] == rest + [Combine(y, x, aggregate).value];
        AddInsideLast(a, rest, y, x, aggregate);
      } else {
        AddEarlier(rest, y, x, i, aggregate);
        assert y.index != x.index by { assert b[i].index == x.index; }
        AddInsideEarlier(a, rest, y, x, aggregate);
      }
    }
  }

  lemma FindEarlier(rest: seq<Completion>, y: Completion, index: int, i: nat)
    requires i < |rest| && Find(rest + [y], index) == i
    ensures Find(rest, index) == i
  {
    var b := rest + [y];
    forall k | 0 <= k < i ensures rest[k].index != index { assert b[k] == rest[k]; }
    assert b[i] == rest[i];
    FindIs(rest, index, i);
  }

  lemma AddEarlier(rest: seq<Completion>, y: Completion, x: Completion, i: nat, aggregate: bool)
    requires i < |rest| && Find(rest + [y], x.index) == i && AddOne(rest + [y], x, aggregate).Some?
    ensures Find(rest, x.index) == i && AddOne(rest, x, aggregate).Some?
    ensures AddOne(rest + [y], x, aggregate).value == AddOne(rest, x, aggregate).value + [y]
  {
    var b := rest + [y];
    hide Combine, Find, AddOne;
    FindEarlier(rest, y, x.index, i);
    assert b[i] == rest[i];
    AddOneAt(b, x, i, aggregate);
    AddOneAt(rest, x, i, aggregate);
    var c := Combine(b[i], x, aggregate).value;
    assert b[i := c] == rest[i := c] + [y];
  }

  lemma {:induction false} AddInsideEarlier(a: seq<Completion>, rest: seq<Completion>, y: Completion, x: Completion,
      aggregate: bool)
    requires DistinctIndices(rest) && y.index != x.index && Find(rest, x.index) < |rest|
    requires AddOne(rest, x, aggregate).Some?
    requires AddAll(a, AddOne(rest, x, aggregate).value + [y], aggregate).Some?
    ensures Then(AddAll(a, rest + [y], aggregate), x, aggregate) ==
            AddAll(a, AddOne(rest, x, aggregate).value + [y], aggregate)
    decreases |rest| + 1, 0
  {
    hide Combine, Find, AddOne, AddAll;
    AddAllLast(a, AddOne(rest, x, aggregate).value, y, aggregate);
    AddAllLast(a, rest, y, aggregate);
    AddInside(a, rest, x, aggregate);
    AddedIsFound(a, rest, x.index, aggregate);
    AddOthersFirst(AddAll(a, rest, aggregate).value, x, y, aggregate);
  }

  /** Merging is independent of grouping: where merging the later ones first goes through, it gives the same. */
  lemma {:induction false} Grouping(a: seq<Completion>, b: seq<Completion>, c: seq<Completion>, aggregate: bool)
    requires DistinctIndices(b) && AddAll(b, c, aggregate).Some?
    requires AddAll(a, AddAll(b, c, aggregate).value, aggregate).Some?
    ensures AddAll(a, b, aggregate).Some?
    ensures AddAll(AddAll(a, b, aggregate).value, c, aggregate) == AddAll(a, AddAll(b, c, aggregate).value, aggregate)
    decreases |c|
  {
    if c != [] {
      var rest, x := c[..|c| - 1], c[|c| - 1];
      var br := AddAll(b, rest, aggregate).value;
      AddAllKeepsDistinct(b, rest, aggregate);
      AddInside(a, br, x, aggregate);
      assert AddAll(a, br, aggregate).Some?;
      Grouping(a, b, rest, aggregate);
    }
  }

  /** Logprobs on every completion, or on none. */
  ghost predicate Uniform(outs: seq<Completion>, present: bool) {
    forall i | 0 <= i < |outs| :: outs[i].logprobs.Some? == present
  }

  lemma {:induction false} UniformGoesThrough(outs: seq<Completion>, nexts: seq<Completion>, present: bool,
      aggregate: bool)
    requires Uniform(outs, present) && Uniform(nexts, present)
    ensures AddAll(outs, nexts, aggregate).Some? && Uniform(AddAll(outs, nexts, aggregate).value, present)
    decreases |nexts|
  {
    if nexts != [] { UniformGoesThrough(outs, nexts[..|nexts| - 1], present, aggregate); }
  }

  /** With logprobs always or never present, any consecutive outputs can be merged first. */
  lemma UniformGrouping(a: seq<Completion>, b: seq<Completion>, c: seq<Completion>, present: bool, aggregate: bool)
    requires Uniform(a, present) && Uniform(b, present) && Uniform(c, present) && DistinctIndices(b)
    ensures AddAll(a, b, aggregate).Some? && AddAll(b, c, aggregate).Some?
    ensures AddAll(AddAll(a, b, aggregate).value, c, aggregate).Some?
    ensures AddAll(AddAll(a, b, aggregate).value, c, aggregate) == AddAll(a, AddAll(b, c, aggregate).value, aggregate)
  {
    hide AddAll;
    UniformGoesThrough(a, b, present, aggregate);
    UniformGoesThrough(b, c, present, aggregate);
    UniformGoesThrough(a, AddAll(b, c, aggregate).value, present, aggregate);
    Grouping(a, b, c, aggregate);
  }

  /** It is not more than that: combining first can trip over logprobs that combining in order does not need. */
  lemma RightGroupingCanFail()
    ensures
      var a := Completion(0, "", [], None, Some([]), None, None);
      var b := a.(logprobs := None);
      var c := a.(logprobs := Some([map[]]));
      && AddAll([b], [c], true) == None
      && AddAll([a], [b, c], true) == Some([c])
  {
    var a := Completion(0, "", [], None, Some([]), None, None);
    var b := a.(logprobs := None);
    var c := a.(logprobs := Some([map[]]));
    AddAllLast([b], [], c, true);
    AddAllLast([a], [b], c, true);
    AddAllLast([a], [], b, true);
    assert [] + [c] == [c] && [b] + [c] == [b, c] && [] + [b] == [b];
    assert Combine(a, b, true) == Some(a) by { assert "" + "" == ""; assert a.tokenIds + b.tokenIds == []; }
    assert AddOne([a], b, true) == Some([a]) by { assert [a][0 := a] == [a]; }
    var one: seq<OnePosition> := [map[]];
    assert Combine(a, c, true) == Some(c) by {
      assert "" + "" == "";
      assert a.tokenIds + c.tokenIds == [];
      assert a.logprobs.value + one == one;
    }
    assert AddOne([a], c, true) == Some([c]) by { assert [a][0 := c] == [c]; }
  }

  // ---------------------------------------------------------------------------------------
  // What a folded stream says
  // ---------------------------------------------------------------------------------------

  /** The completions of one index, in order. */
  function Mine(ds: seq<Completion>, index: int): seq<Completion> {
    if ds == [] then []
    else Mine(ds[..|ds| - 1], index) + if ds[|ds| - 1].index == index then [ds[|ds| - 1]] else []
  }

  function TextOf(ms: seq<Completion>): string {
    if ms == [] then "" else TextOf(ms[..|ms| - 1]) + ms[|ms| - 1].text
  }

  function TokensOf(ms: seq<Completion>): seq<int> {
    if ms == [] then [] else TokensOf(ms[..|ms| - 1]) + ms[|ms| - 1].tokenIds
  }

  function LogprobsOf(ms: seq<Completion>): seq<OnePosition> {
    if ms == [] then []
    else LogprobsOf(ms[..|ms| - 1]) + if ms[|ms| - 1].logprobs.Some? then ms[|ms| - 1].logprobs.value else []
  }

  /** All of one index in one completion: everything concatenated, and the last of what is not. */
  function Summary(ms: seq<Completion>): Completion
    requires ms != []
  {
    var last := ms[|ms| - 1];
    Completion(ms[0].index, TextOf(ms), TokensOf(ms), last.cumulativeLogprob,
               if ms[0].logprobs.Some? then Some(LogprobsOf(ms)) else None, last.finishReason, last.stopReason)
  }

  lemma SummaryOfOne(x: Completion)
    ensures Summary([x]) == x
  {
    assert [x][..0] == [];
    assert TextOf([x]) == "" + x.text == x.text;
    assert TokensOf([x]) == [] + x.tokenIds == x.tokenIds;
    assert x.logprobs.Some? ==> LogprobsOf([x]) == [] + x.logprobs.value == x.logprobs.value;
  }

  lemma SummaryGrows(ms: seq<Completion>, x: Completion)
    requires ms != [] && ms[0].index == x.index
    ensures
      var c := Combine(Summary(ms), x, true);
      && (c.Some? <==> (ms[0].logprobs.None? ==> x.logprobs.None? || x.logprobs.value == []))
      && (c.Some? ==> c.value == Summary(ms + [x]))
  {
    var all := ms + [x];
    assert all[..|all| - 1] == ms && all[0] == ms[0];
    assert x.logprobs.Some? && x.logprobs.value == [] ==> LogprobsOf(ms) + x.logprobs.value == LogprobsOf(ms);
    assert LogprobsOf(ms) + [] == LogprobsOf(ms);
  }

  lemma {:induction false} MineHasIndex(ds: seq<Completion>, index: int)
    ensures forall m <- Mine(ds, index) :: m.index == index
    ensures Mine(ds, index) == [] <==> Find(ds, index) == |ds|
    ensures Mine(ds, index) != [] ==> Mine(ds, index)[0] == ds[Find(ds, index)]
    decreases |ds|
  {
    if ds != [] {
      var rest, x := ds[..|ds| - 1], ds[|ds| - 1];
      MineHasIndex(rest, index);
      assert ds == rest + [x];
      if Find(rest, index) < |rest| {
        FindLater(rest, x, index, Find(rest, index));
      } else if x.index == index {
        forall k | 0 <= k < |rest| ensures ds[k].index != index { assert ds[k] == rest[k]; }
        FindIs(ds, index, |rest|);
      } else {
        forall k | 0 <= k < |ds| ensures ds[k].index != index { assert k < |rest| ==> ds[k] == rest[k]; }
      }
    }
  }

  /** Folding a stream gives every index the concatenation of its texts, tokens and logprobs and the last
      finish reason, and no index that did not occur. */
  lemma {:induction false} FoldSummarizes(ds: seq<Completion>, index: int)
    requires AddAll([], ds, true).Some?
    ensures
      var r := AddAll([], ds, true).value;
      && (Mine(ds, index) == [] <==> Find(r, index) == |r|)
      && (Mine(ds, index) != [] ==> r[Find(r, index)] == Summary(Mine(ds, index)))
    decreases |ds|
  {
    if ds != [] {
      var rest, x := ds[..|ds| - 1], ds[|ds| - 1];
      FoldSummarizes(rest, index);
      var before := AddAll([], rest, true).value;
      MineHasIndex(rest, index);
      FoldStep(before, x, Mine(rest, index), index);
    }
  }

  /** Replacing instead of aggregating keeps the last completion of every index. */
  lemma {:induction false} FoldReplaces(ds: seq<Completion>, index: int)
    ensures AddAll([], ds, false).Some?
    ensures
      var r := AddAll([], ds, false).value;
      && (Mine(ds, index) == [] <==> Find(r, index) == |r|)
      && (Mine(ds, index) != [] ==> r[Find(r, index)] == Mine(ds, index)[|Mine(ds, index)| - 1])
    decreases |ds|
  {
    if ds != [] {
      var rest, x := ds[..|ds| - 1], ds[|ds| - 1];
      FoldReplaces(rest, index);
      var before := AddAll([], rest, false).value;
      ReplaceStep(before, x, Mine(rest, index), index);
    }
  }

  lemma ReplaceStep(before: seq<Completion>, x: Completion, ms: seq<Completion>, index: int)
    requires ms == [] <==> Find(before, index) == |before|
    requires ms != [] ==> before[Find(before, index)] == ms[|ms| - 1]
    ensures AddOne(before, x, false).Some?
    ensures
      var r, more := AddOne(before, x, false).value, ms + if x.index == index then [x] else [];
      && (more == [] <==> Find(r, index) == |r|)
      && (more != [] ==> r[Find(r, index)] == more[|more| - 1])
  {
    var i := Find(before, x.index);
    hide Find;
    if i < |before| {
      AddOneAt(before, x, i, false);
      SameFind(before, before[i := x], index);
    } else {
      AddOneNew(before, x, false);
      var r := before + [x];
      if x.index == index {
        forall k | 0 <= k < |before| ensures r[k].index != index { assert r[k] == before[k]; }
        FindIs(r, index, |before|);
      } else {
        FindAfterOther(before, x, index);
      }
    }
  }

  lemma FoldStep(before: seq<Completion>, x: Completion, ms: seq<Completion>, index: int)
    requires AddOne(before, x, true).Some?
    requires ms == [] <==> Find(before, index) == |before|
    requires ms != [] ==> ms[0].index == index && before[Find(before, index)] == Summary(ms)
    ensures
      var r, more := AddOne(before, x, true).value, ms + if x.index == index then [x] else [];
      && (more == [] <==> Find(r, index) == |r|)
      && (more != [] ==> r[Find(r, index)] == Summary(more))
  {
    var r, i := AddOne(before, x, true).value, Find(before, x.index);
    hide Summary, Combine, Find;
    if i < |before| {
      AddOneAt(before, x, i, true);
      SameFind(before, r, index);
      if x.index == index { SummaryGrows(ms, x); } else { assert ms + [] == ms; }
    } else {
      AddOneNew(before, x, true);
      if x.index == index {
        forall k | 0 <= k < |before| ensures r[k].index != index { assert r[k] == before[k]; }
        FindIs(r, index, |before|);
        SummaryOfOne(x);
        assert ms + [x] == [x];
      } else {
        FindAfterOther(before, x, index);
        assert ms + [] == ms;
      }
    }
  }

  lemma FindAfterOther(outs: seq<Completion>, x: Completion, index: int)
    requires x.index != index
    ensures Find(outs, index) < |outs| ==> Find(outs + [x], index) == Find(outs, index)
    ensures Find(outs, index) == |outs| ==> Find(outs + [x], index) == |outs| + 1
  {
    var b := outs + [x];
    if Find(outs, index) < |outs| {
      FindLater(outs, x, index, Find(outs, index));
    } else {
      forall k | 0 <= k < |b| ensures b[k].index != index { assert k < |outs| ==> b[k] == outs[k]; }
    }
  }

  /** The assertion fails exactly when logprobs arrive for an index whose first completion had none. */
  lemma {:induction false} FoldGoesThrough(ds: seq<Completion>)
    ensures AddAll([], ds, true).Some? <==>
            forall k | 0 <= k < |ds| && ds[k].logprobs.Some? && ds[k].logprobs.value != [] ::
              ds[Find(ds, ds[k].index)].logprobs.Some?
    decreases |ds|
  {
    if ds != [] {
      var n := |ds| - 1;
      var rest, x := ds[..n], ds[n];
      FoldGoesThrough(rest);
      assert ds == rest + [x];
      forall k | 0 <= k < n
        ensures Find(rest, ds[k].index) < n && Find(ds, ds[k].index) == Find(rest, ds[k].index)
      {
        FoundBefore(rest, x, k);
      }
      if AddAll([], rest, true).Some? {
        LastGoesThrough(rest, x);
      }
    }
  }

  lemma FoundBefore(rest: seq<Completion>, x: Completion, k: nat)
    requires k < |rest|
    ensures
      var index := rest[k].index;
      Find(rest, index) < |rest| && Find(rest + [x], index) == Find(rest, index)
  {
    FindLater(rest, x, rest[k].index, Find(rest, rest[k].index));
  }

  lemma LastGoesThrough(rest: seq<Completion>, x: Completion)
    requires AddAll([], rest, true).Some?
    ensures Find(rest + [x], x.index) <= |rest|
    ensures AddOne(AddAll([], rest, true).value, x, true).Some? <==>
            (x.logprobs.Some? && x.logprobs.value != [] ==> (rest + [x])[Find(rest + [x], x.index)].logprobs.Some?)
  {
    var ds, before := rest + [x], AddAll([], rest, true).value;
    FoldSummarizes(rest, x.index);
    MineHasIndex(rest, x.index);
    var ms, i := Mine(rest, x.index), Find(before, x.index);
    assert ds[|rest|].index == x.index;
    if ms != [] {
      FindLater(rest, x, x.index, Find(rest, x.index));
      AddOneAt(before, x, i, true);
      SummaryGrows(ms, x);
    } else {
      forall k | 0 <= k < |rest| ensures ds[k].index != x.index { assert ds[k] == rest[k]; }
      FindIs(ds, x.index, |rest|);
    }
  }

  // ---------------------------------------------------------------------------------------
  // When the later outputs can be merged first
  // ---------------------------------------------------------------------------------------

  /** Whatever has logprobs to add follows a first completion of its index that has logprobs. */
  ghost predicate Backed(ds: seq<Completion>) {
    forall k | 0 <= k < |ds| :: BackedAt(ds, k)
  }

  predicate BackedAt(ds: seq<Completion>, k: nat)
    requires k < |ds|
  {
    ds[k].logprobs.Some? && ds[k].logprobs.value != [] ==>
      Find(ds, ds[k].index) < |ds| && ds[Find(ds, ds[k].index)].logprobs.Some?
  }

  lemma FoldsWhenBacked(ds: seq<Completion>)
    ensures AddAll([], ds, true).Some? <==> Backed(ds)
  {
    FoldGoesThrough(ds);
    hide AddAll;
    forall k | 0 <= k < |ds| ensures Find(ds, ds[k].index) < |ds| {}
    if Backed(ds) {
      forall k | 0 <= k < |ds| && ds[k].logprobs.Some? && ds[k].logprobs.value != []
        ensures ds[Find(ds, ds[k].index)].logprobs.Some?
      {
        assert BackedAt(ds, k);
      }
    }
  }

  /** Adding one list after another is adding both. */
  lemma {:induction false} AddAllInTwo(a: seq<Completion>, b: seq<Completion>, c: seq<Completion>, aggregate: bool)
    ensures AddAll(a, b + c, aggregate) ==
            if AddAll(a, b, aggregate).None? then None else AddAll(AddAll(a, b, aggregate).value, c, aggregate)
    decreases |c|
  {
    if c == [] {
      assert b + c == b;
    } else {
      var rest, x := c[..|c| - 1], c[|c| - 1];
      assert b + c == (b + rest) + [x] && c == rest + [x];
      hide AddAll, AddOne;
      AddAllInTwo(a, b, rest, aggregate);
      AddAllLast(a, b + rest, x, aggregate);
      if AddAll(a, b, aggregate).Some? { AddAllLast(AddAll(a, b, aggregate).value, rest, x, aggregate); }
    }
  }

  /** Completions of different indices add up to themselves. */
  lemma {:induction false} DistinctAddUp(b: seq<Completion>, aggregate: bool)
    requires DistinctIndices(b)
    ensures AddAll([], b, aggregate) == Some(b)
    decreases |b|
  {
    if b != [] {
      var rest, x := b[..|b| - 1], b[|b| - 1];
      DistinctAddUp(rest, aggregate);
      forall k | 0 <= k < |rest| ensures rest[k].index != x.index { assert b[k] == rest[k]; }
      AddOneNew(rest, x, aggregate);
      assert b == rest + [x];
      AddAllLast([], rest, x, aggregate);
    }
  }

  lemma {:induction false} SomeLogprobs(ms: seq<Completion>) returns (k: nat)
    requires LogprobsOf(ms) != []
    ensures k < |ms| && ms[k].logprobs.Some? && ms[k].logprobs.value != []
    decreases |ms|
  {
    k := |ms| - 1;
    if ms[k].logprobs.None? || ms[k].logprobs.value == [] {
      assert LogprobsOf(ms[..k]) + [] == LogprobsOf(ms[..k]);
      k := SomeLogprobs(ms[..k]);
    }
  }

  lemma {:induction false} MineAreThere(ds: seq<Completion>, index: int, m: Completion)
    requires m in Mine(ds, index)
    ensures m in ds && m.index == index
    decreases |ds|
  {
    MineHasIndex(ds, index);
    if m in Mine(ds[..|ds| - 1], index) {
      MineAreThere(ds[..|ds| - 1], index, m);
    }
  }

  lemma FindInTwo(a: seq<Completion>, b: seq<Completion>, index: int)
    ensures Find(a + b, index) == if Find(a, index) < |a| then Find(a, index) else |a| + Find(b, index)
  {
    var i, j, ab := Find(a, index), Find(b, index), a + b;
    if i < |a| {
      forall k | 0 <= k < i ensures ab[k].index != index { assert ab[k] == a[k]; }
      FindIs(ab, index, i);
    } else {
      forall k | 0 <= k < |a| + j ensures ab[k].index != index {
        assert ab[k] == if k < |a| then a[k] else b[k - |a|];
      }
      if j < |b| {
        assert ab[|a| + j] == b[j];
        FindIs(ab, index, |a| + j);
      }
    }
  }

  /** Logprobs merged from later outputs came from one of them. */
  lemma LogprobsCameFrom(ds: seq<Completion>, k: nat) returns (n: nat)
    requires AddAll([], ds, true).Some? && k < |AddAll([], ds, true).value|
    requires
      var x := AddAll([], ds, true).value[k];
      x.logprobs.Some? && x.logprobs.value != []
    ensures n < |ds| && ds[n].index == AddAll([], ds, true).value[k].index
    ensures ds[n].logprobs.Some? && ds[n].logprobs.value != []
  {
    var r := AddAll([], ds, true).value;
    var index := r[k].index;
    AddAllKeepsDistinct([], ds, true);
    FindIs(r, index, k);
    FoldSummarizes(ds, index);
    var ms := Mine(ds, index);
    hide AddAll, Mine, Find;
    var i := SomeLogprobs(ms);
    MineAreThere(ds, index, ms[i]);
    n :| 0 <= n < |ds| && ds[n] == ms[i];
  }

  /** What merging the later outputs first asks for, when merging in order goes through. */
  lemma MergedIsBacked(a: seq<Completion>, bc: seq<Completion>)
    requires DistinctIndices(a) && AddAll([], bc, true).Some? && Backed(a + bc)
    ensures Backed(a + AddAll([], bc, true).value)
  {
    var r := AddAll([], bc, true).value;
    AddAllKeepsDistinct([], bc, true);
    hide AddAll, Find;
    forall k | 0 <= k < |a + r|
      ensures BackedAt(a + r, k)
    {
      var x := (a + r)[k];
      FindInTwo(a, r, x.index);
      if k < |a| {
        FindIs(a, x.index, k);
      } else {
        FindIs(r, x.index, k - |a|);
        if x.logprobs.Some? && x.logprobs.value != [] {
          var n := LogprobsCameFrom(bc, k - |a|);
          FindInTwo(a, bc, x.index);
          assert (a + bc)[|a| + n] == bc[n] && BackedAt(a + bc, |a| + n);
        }
      }
    }
  }

  /** The later outputs can be merged first exactly when merging in order goes through and, among the later
      outputs alone, whatever has logprobs follows a first completion of its index that has logprobs. */
  lemma GroupingGoesThrough(a: seq<Completion>, b: seq<Completion>, c: seq<Completion>)
    requires DistinctIndices(a) && DistinctIndices(b)
    ensures
      var left := AddAll(a, b, true).Some? && AddAll(AddAll(a, b, true).value, c, true).Some?;
      var right := AddAll(b, c, true).Some? && AddAll(a, AddAll(b, c, true).value, true).Some?;
      right <==> left && Backed(b + c)
  {
    hide AddAll, Backed, DistinctIndices;
    DistinctAddUp(a, true);
    DistinctAddUp(b, true);
    AddAllInTwo([], b, c, true);
    FoldsWhenBacked(b + c);
    if AddAll(b, c, true).Some? {
      var r := AddAll(b, c, true).value;
      AddAllInTwo([], a, r, true);
      FoldsWhenBacked(a + r);
      AddAllInTwo([], a, b + c, true);
      AddAllInTwo(a, b, c, true);
      FoldsWhenBacked(a + (b + c));
      if AddAll(a, r, true).Some? { Grouping(a, b, c, true); }
      if Backed(a + (b + c)) { MergedIsBacked(a, b + c); }
    }
  }
}
