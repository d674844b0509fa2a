/** Logprobs of request outputs as containers, flat or not, that are merged in place (overlay/vllm/outputs.py). */
module MergedLogprobs {
  import opened Wrappers
  import opened Logprobs
  import opened FlatLogprobs
  import opened Outputs

  ghost predicate Readable(c: Option<Container>)
    reads if c.None? then {} else c.value.Repr()
  {
    c.Some? ==> c.value.Valid()
  }

  /** What a completion's logprobs read as. */
  ghost function Read(c: Option<Container>): Option<seq<OnePosition>>
    requires Readable(c)
    reads if c.None? then {} else c.value.Repr()
  {
    if c.None? then None else Some(c.value.Contents())
  }

  method IsEmpty(c: Container) returns (empty: bool)
    requires c.Valid()
    ensures empty <==> c.Contents() == []
  {
    match c {
      case FlatForm(flat) =>
        var n := flat.Len();
        empty := n == 0;
      case ListForm(list) => empty := list.items == [];
    }
  }

  /** The step of a merge that extends the logprobs in place, flat or not: they come to read as the merge of what
      they read as; false is the failed assertion. */
  method MergeLogprobs(mine: Option<Container>, next: Option<Container>) returns (ok: bool)
    requires Readable(mine) && Readable(next)
    modifies if mine.None? then {} else mine.value.Repr()
    ensures Readable(mine)
    ensures var merged := Extended(old(Read(mine)), old(Read(next)));
            ok == merged.Some? && Read(mine) == if ok then merged.value else old(Read(mine))
  {
    var nothing := true;
    if next.Some? { nothing := IsEmpty(next.value); }
    if nothing { return true; }
    if mine.None? { return false; }
    ExtendLogprobs(mine.value, next.value);
    ok := true;
  }
}
