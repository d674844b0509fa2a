/** The logprobs containers as objects: the flat one, which keeps six parallel lists, and the plain list of
    dictionaries (overlay/vllm/logprobs.py). */
module FlatLogprobs {
  import opened Common
  import opened Wrappers
  import opened Logprobs
  import opened ReverseSlices

  datatype Error = IndexError | ValueError

  /** Decoded tokens come as a list or as an endless repetition. */
  datatype Decoded = Listed(tokens: seq<Option<string>>) | Repeated(token: Option<string>)

  predicate HasDecoded(d: Decoded, i: nat) { d.Listed? ==> i < |d.tokens| }

  function DecodedAt(d: Decoded, i: nat): Option<string>
    requires HasDecoded(d, i)
  {
    if d.Listed? then d.tokens[i] else d.token
  }

  function ZipLength(tokenIds: seq<int>, logprobs: seq<real>, ranks: seq<int>, decoded: Decoded): nat {
    var n := Min(Min(|tokenIds|, |logprobs|), |ranks|);
    if decoded.Listed? then Min(n, |decoded.tokens|) else n
  }

  /** `zip`: it ends with the shortest of its arguments. */
  function Zip(tokenIds: seq<int>, logprobs: seq<real>, ranks: seq<int>, decoded: Decoded): (rows: seq<Row>)
    ensures |rows| == ZipLength(tokenIds, logprobs, ranks, decoded)
  {
    var n := ZipLength(tokenIds, logprobs, ranks, decoded);
    seq(n, i requires 0 <= i < n =>
      Row(tokenIds[i], Logprob(logprobs[i], Some(ranks[i]), DecodedAt(decoded, i))))
  }

  /** `chain((rank,), range(1, num_logprobs + 1))`, where -1 stands for as many as there are logprobs. */
  function Ranks(rank: int, numLogprobs: int, logprobs: seq<real>): seq<int> {
    var n := if numLogprobs == -1 then |logprobs| else numLogprobs;
    [rank] + if n > 0 then seq(n, i => i + 1) else []
  }

  function OrEmpty(p: Option<OnePosition>): OnePosition { if p.Some? then p.value else map[] }

  function AllOrEmpty(ps: seq<Option<OnePosition>>): seq<OnePosition> {
    seq(|ps|, i requires 0 <= i < |ps| => OrEmpty(ps[i]))
  }

  function RowsOf(tokenIds: seq<int>, logprobs: seq<real>, ranks: seq<Option<int>>, decoded: seq<Option<string>>)
    : (rows: seq<Row>)
    requires |tokenIds| == |logprobs| == |ranks| == |decoded|
    ensures |rows| == |tokenIds|
  {
    seq(|tokenIds|, i requires 0 <= i < |tokenIds| => Row(tokenIds[i], Logprob(logprobs[i], ranks[i], decoded[i])))
  }

  lemma SomeElement<T>(s: set<T>) returns (x: T)
    requires s != {}
    ensures x in s
  {
    x :| x in s;
  }

  function Grown<T>(start: seq<T>, tail: seq<T>, i: nat): seq<T>
    requires i <= |tail|
  {
    start + tail[..i]
  }

  lemma OneMore<T>(start: seq<T>, tail: seq<T>, i: nat)
    requires i < |tail|
    ensures Grown(start, tail, i + 1) == Grown(start, tail, i) + [tail[i]]
  {
  }

  class FlatLogprobs {
    var startIndices: seq<int>
    var endIndices: seq<int>
    var tokenIds: seq<int>
    var logprobs: seq<real>
    var ranks: seq<Option<int>>
    var decodedTokens: seq<Option<string>>

    /** The lists of rows agree in length. */
    ghost predicate RowsAligned()
      reads this
    {
      |tokenIds| == |logprobs| == |ranks| == |decodedTokens|
    }

    ghost predicate Aligned()
      reads this
    {
      RowsAligned() && |startIndices| == |endIndices|
    }

    ghost function Rows(): seq<Row>
      requires RowsAligned()
      reads this
    {
      RowsOf(tokenIds, logprobs, ranks, decodedTokens)
    }

    /** What is stored. The ranges need not lie in the rows. */
    ghost function Raw(): Slice
      requires Aligned()
      reads this
    {
      Slice(startIndices, endIndices, Rows())
    }

    ghost predicate Natural()
      reads this
    {
      && Aligned()
      && (forall i | 0 <= i < |startIndices| :: 0 <= startIndices[i])
      && (forall i | 0 <= i < |endIndices| :: 0 <= endIndices[i])
    }

    ghost function Value(): Flat
      requires Natural()
      reads this
    {
      Flat(startIndices, endIndices, Rows())
    }

    ghost predicate Valid()
      reads this
    {
      Natural() && WellFormed(Value())
    }

    /** The list of dictionaries this stands for. */
    ghost function Contents(): seq<OnePosition>
      requires Valid()
      reads this
    {
      View(Value())
    }

    constructor ()
      ensures Valid() && Contents() == [] && Tiled(Value())
    {
      startIndices, endIndices := [], [];
      tokenIds, logprobs, ranks, decodedTokens := [], [], [], [];
    }

    constructor FromLists(
      startIndices: seq<int>, endIndices: seq<int>, tokenIds: seq<int>, logprobs: seq<real>, ranks: seq<Option<int>>,
      decodedTokens: seq<Option<string>>)
      requires |startIndices| == |endIndices| && |tokenIds| == |logprobs| == |ranks| == |decodedTokens|
      ensures Aligned() && Raw() == Slice(startIndices, endIndices, RowsOf(tokenIds, logprobs, ranks, decodedTokens))
    {
      this.startIndices, this.endIndices := startIndices, endIndices;
      this.tokenIds, this.logprobs, this.ranks, this.decodedTokens := tokenIds, logprobs, ranks, decodedTokens;
    }

    method PushRow(row: Row)
      requires RowsAligned()
      modifies this`tokenIds, this`logprobs, this`ranks, this`decodedTokens
      ensures RowsAligned() && Rows() == old(Rows()) + [row]
    {
      tokenIds := tokenIds + [row.tokenId];
      logprobs := logprobs + [row.info.logprob];
      ranks := ranks + [row.info.rank];
      decodedTokens := decodedTokens + [row.info.decodedToken];
    }

    /** Pushes the items of a dictionary, in the order it hands them out. */
    method PushItems(position: OnePosition) returns (ghost rows: seq<Row>)
      requires RowsAligned()
      modifies this`tokenIds, this`logprobs, this`ranks, this`decodedTokens
      ensures RowsAligned() && Rows() == old(Rows()) + rows
      ensures Dict(rows) == position && |rows| == |position|
    {
      var left: set<int> := position.Keys;
      rows := [];
      while left != {}
        invariant left <= position.Keys && |rows| + |left| == |position.Keys|
        invariant RowsAligned() && Rows() == old(Rows()) + rows
        invariant Dict(rows) == position - left
        decreases |left|
      {
        ghost var _ := SomeElement(left);
        var tokenId :| tokenId in left;
        PushRow(Row(tokenId, position[tokenId]));
        ghost var row := Row(tokenId, position[tokenId]);
        assert (rows + [row])[..|rows|] == rows;
        assert (position - left)[tokenId := position[tokenId]] == position - (left - {tokenId});
        rows := rows + [row];
        left := left - {tokenId};
      }
      assert |position.Keys| == |position|;
      assert position - {} == position;
    }

    method Append(position: Option<OnePosition>) returns (ghost rows: seq<Row>)
      requires Valid()
      modifies this
      ensures Valid() && Value() == Appended(old(Value()), rows)
      ensures Dict(rows) == OrEmpty(position) && |rows| == |OrEmpty(position)|
      ensures Contents() == old(Contents()) + [OrEmpty(position)]
      ensures Contents() == old(Contents()) + [if position == None then map[] else position.value]
    {
      ghost var before := Value();
      rows := [];
      startIndices := startIndices + [|logprobs|];
      if position.Some? && |position.value| > 0 {
        rows := PushItems(position.value);
      } else {
        assert OrEmpty(position) == map[];
      }
      endIndices := endIndices + [|logprobs|];
      assert Value() == Appended(before, rows);
      AppendViews(before, rows);
    }

    /** `append_fast`. */
    method AppendFast(newTokenIds: seq<int>, newLogprobs: seq<real>, newRanks: seq<int>, decoded: Decoded)
      requires Valid()
      modifies this
      ensures Valid() && Value() == Appended(old(Value()), Zip(newTokenIds, newLogprobs, newRanks, decoded))
      ensures Contents() == old(Contents()) + [Dict(Zip(newTokenIds, newLogprobs, newRanks, decoded))]
    {
      ghost var before, rows := Value(), Zip(newTokenIds, newLogprobs, newRanks, decoded);
      startIndices := startIndices + [|logprobs|];
      var i := 0;
      while i < |newTokenIds| && i < |newLogprobs| && i < |newRanks| && HasDecoded(decoded, i)
        invariant 0 <= i <= |rows|
        invariant startIndices == before.starts + [|before.rows|] && endIndices == before.ends
        invariant RowsAligned() && Rows() == before.rows + rows[..i]
      {
        PushRow(Row(newTokenIds[i], Logprob(newLogprobs[i], Some(newRanks[i]), DecodedAt(decoded, i))));
        assert rows[..i + 1] == rows[..i] + [rows[i]];
        i := i + 1;
      }
      assert rows[..|rows|] == rows;
      endIndices := endIndices + [|logprobs|];
      assert Value() == Appended(before, rows);
      AppendViews(before, rows);
    }

    /** `extend` by a list of dictionaries. */
    method Extend(positions: seq<Option<OnePosition>>)
      requires Valid()
      modifies this
      ensures Valid() && Contents() == old(Contents()) + AllOrEmpty(positions)
      ensures |Contents()| == |old(Contents())| + |positions|
      ensures forall i | 0 <= i < |positions| ::
                Contents()[|old(Contents())| + i] == if positions[i] == None then map[] else positions[i].value
      ensures old(Tiled(Value())) ==> Tiled(Value())
      ensures old(Rows()) <= Rows() && old(startIndices) <= startIndices && old(endIndices) <= endIndices
    {
      hide WellFormed, View, Dict, RowsOf;
      for i := 0 to |positions|
        invariant Valid() && Contents() == old(Contents()) + AllOrEmpty(positions[..i])
        invariant old(Tiled(Value())) ==> Tiled(Value())
        invariant old(Rows()) <= Rows() && old(startIndices) <= startIndices && old(endIndices) <= endIndices
      {
        ghost var before := Value();
        ghost var rows := Append(positions[i]);
        if Tiled(before) { AppendTiles(before, rows); }
        assert AllOrEmpty(positions[..i + 1]) == AllOrEmpty(positions[..i]) + [OrEmpty(positions[i])];
      }
      assert positions[..|positions|] == positions;
    }

    /** A step of `extend` by another flat container, or by this one. */
    method AppendCopyOf(other: FlatLogprobs, i: nat)
      requires Valid() && other.Valid() && i < |other.Contents()|
      modifies this
      ensures Valid() && other.Valid()
      ensures Contents() == old(Contents()) + [old(other.Contents()[i])]
      ensures old(other.Contents()) <= other.Contents()
    {
      hide WellFormed, View, Dict, Appended;
      var position := other.GetItem(i);
      ghost var _ := Append(Some(position.value));
    }

    /** `extend` by another flat container, or by this one: the number of positions is read before the first. */
    method ExtendFlat(other: FlatLogprobs)
      requires Valid() && other.Valid()
      modifies this
      ensures Valid() && Contents() == old(Contents()) + old(other.Contents())
    {
      ghost var start, tail := Contents(), other.Contents();
      var n := |other.startIndices|;
      assert |tail| == n && Grown(start, tail, 0) == start && Grown(start, tail, n) == start + tail;
      hide *;
      for i := 0 to n
        invariant Valid() && other.Valid()
        invariant Contents() == Grown(start, tail, i)
        invariant tail <= other.Contents()
      {
        AppendCopyOf(other, i);
        OneMore(start, tail, i);
      }
    }

    /** `__len__`. */
    method Len() returns (n: nat)
      requires Valid()
      ensures n == |Contents()|
    {
      n := |startIndices|;
    }

    /** `__getitem__` of a position. */
    method GetItem(index: int) returns (r: Result<OnePosition, Error>)
      requires Aligned()
      ensures r.Err? ==> r.error == IndexError
      ensures
        var n := |startIndices|;
        var i := if index < 0 then index + n else index;
        if 0 <= i < n && Position(Raw(), i).Some? then r == Ok(Position(Raw(), i).value) else r.Err?
      ensures Valid() ==> (r.Ok? <==> -|Contents()| <= index < |Contents()|)
      ensures Valid() && r.Ok? ==> r.value == Contents()[if index < 0 then index + |Contents()| else index]
    {
      var i := if index < 0 then index + |startIndices| else index;
      if !(0 <= i < |startIndices|) {
        return Err(IndexError);
      }
      if Valid() { PositionReads(Value(), i); }
      hide WellFormed, View, ReadDict, RowsOf;
      var dict := ReadPosition(startIndices[i], endIndices[i]);
      r := if dict.Some? then Ok(dict.value) else Err(IndexError);
    }

    /** The comprehension over the rows from start to end; None for an index out of range. */
    method ReadPosition(start: int, end: int) returns (r: Option<OnePosition>)
      requires RowsAligned()
      ensures r == ReadDict(Rows(), start, end)
    {
      var dict: OnePosition := map[];
      var k := start;
      ghost var rows, read := Rows(), [];
      hide Reads, Dict, RowsOf, RowAt;
      DictOfNone();
      ReadsNone(rows, k);
      while k < end
        invariant start <= k && (k <= end || k == start)
        invariant Reads(rows, start, k) == Some(read) && dict == Dict(read)
      {
        ReadsNext(rows, start, k);
        RowOfLists(tokenIds, logprobs, ranks, decodedTokens, k);
        var at := if k < 0 then k + |tokenIds| else k;
        if !(0 <= at < |tokenIds|) {
          ReadsFail(rows, start, k + 1, end);
          return None;
        }
        var info := Logprob(logprobs[at], ranks[at], decodedTokens[at]);
        DictOfMore(read, Row(tokenIds[at], info));
        dict := dict[tokenIds[at] := info];
        read := read + [Row(tokenIds[at], info)];
        k := k + 1;
      }
      ReadsPast(rows, start, end, k);
      r := Some(dict);
    }

    /** `__getitem__` of a slice. With a negative step the new container can hold ranges outside its rows. */
    method GetSlice(start: Option<int>, stop: Option<int>, step: int) returns (r: Result<FlatLogprobs, Error>)
      requires Valid()
      ensures r == Err(ValueError) <==> step == 0
      ensures step > 0 ==> (r.Err? <==> PicksOf(start, stop, step, |Contents()|).count == 0)
      ensures
        r.Ok? && step > 0 ==>
          var p := PicksOf(start, stop, step, |Contents()|);
          && fresh(r.value) && r.value.Valid() && Within(p, |Contents()|)
          && r.value.Value() == Sliced(Value(), p)
          && r.value.Contents() == Pick(Contents(), p)
          && (Tiled(Value()) && step == 1 ==> Tiled(r.value.Value()))
      ensures step < 0 ==> (r.Err? <==> DescentOf(start, stop, -step, |Contents()|).count == 0)
      ensures
        r.Ok? && step < 0 ==>
          var p := DescentOf(start, stop, -step, |Contents()|);
          && fresh(r.value) && r.value.Aligned() && WithinDown(p, |Contents()|) && p.count > 0
          && r.value.Raw() == SlicedDown(Value(), p)
    {
      if step == 0 {
        return Err(ValueError);
      }
      if step < 0 {
        r := GetSliceDown(start, stop, -step);
        return;
      }
      var p := PicksOf(start, stop, step, |startIndices|);
      PicksAreTheSlice(start, stop, step, |startIndices|, 0);
      if p.count == 0 {
        return Err(IndexError);
      }
      ghost var value := Value();
      var flat := CopyRanges(p);
      hide *;
      SliceViews(value, p);
      if Tiled(value) && step == 1 { SliceStaysTiled(value, p); }
      r := Ok(flat);
    }

    /** The same for the step -down. */
    method GetSliceDown(start: Option<int>, stop: Option<int>, down: nat) returns (r: Result<FlatLogprobs, Error>)
      requires Valid() && down > 0
      ensures r.Err? ==> r.error == IndexError
      ensures r.Err? <==> DescentOf(start, stop, down, |Contents()|).count == 0
      ensures
        r.Ok? ==>
          var p := DescentOf(start, stop, down, |Contents()|);
          && fresh(r.value) && r.value.Aligned() && WithinDown(p, |Contents()|) && p.count > 0
          && r.value.Raw() == SlicedDown(Value(), p)
    {
      var p := DescentOf(start, stop, down, |startIndices|);
      DescentIsTheSlice(start, stop, down, |startIndices|, 0);
      if p.count == 0 {
        return Err(IndexError);
      }
      var flat := CopyRangesDown(p);
      r := Ok(flat);
    }

    /** The picked ranges, moved to start at zero, with the rows they span. */
    method CopyRanges(p: Picks) returns (flat: FlatLogprobs)
      requires Valid() && Within(p, |startIndices|) && p.count > 0
      ensures fresh(flat) && flat.Natural() && flat.Value() == Sliced(Value(), p)
    {
      PickedSpan(Value(), p);
      var allStarts: seq<nat>, allEnds: seq<nat> := startIndices, endIndices;
      var starts, ends := Pick(allStarts, p), Pick(allEnds, p);
      var min, max := starts[0], ends[p.count - 1];
      assert Sliced(Value(), p) == Flat(Shift(starts, min), Shift(ends, min), Rows()[min..max]);
      hide Pick, Sliced, WellFormed, Within;
      flat := new FlatLogprobs.FromLists(
        Shift(starts, min), Shift(ends, min), tokenIds[min..max], logprobs[min..max], ranks[min..max],
        decodedTokens[min..max]);
      RowsOfRange(tokenIds, logprobs, ranks, decodedTokens, min, max);
    }

    /** The picked ranges, moved by the start of the first, with the rows from there to the end of the last. */
    method CopyRangesDown(p: Descent) returns (flat: FlatLogprobs)
      requires Valid() && WithinDown(p, |startIndices|) && p.count > 0
      ensures fresh(flat) && flat.Aligned() && flat.Raw() == SlicedDown(Value(), p)
    {
      var allStarts: seq<nat>, allEnds: seq<nat> := startIndices, endIndices;
      assert |allStarts| == |allEnds|;
      var starts, ends := PickDown(allStarts, p), PickDown(allEnds, p);
      var min, max := starts[0], ends[p.count - 1];
      assert SlicedDown(Value(), p) == Slice(Moved(starts, min), Moved(ends, min), PythonRange(Rows(), min, max));
      hide PickDown, SlicedDown, WellFormed, WithinDown, Moved, PythonRange;
      flat := new FlatLogprobs.FromLists(
        Moved(starts, min), Moved(ends, min), PythonRange(tokenIds, min, max), PythonRange(logprobs, min, max),
        PythonRange(ranks, min, max), PythonRange(decodedTokens, min, max));
      RowsOfPythonRange(tokenIds, logprobs, ranks, decodedTokens, min, max);
    }
  }

  /** Row k of the parallel lists, with a negative k counted from the end. */
  lemma RowOfLists(
    tokenIds: seq<int>, logprobs: seq<real>, ranks: seq<Option<int>>, decoded: seq<Option<string>>, k: int)
    requires |tokenIds| == |logprobs| == |ranks| == |decoded|
    ensures
      var at := if k < 0 then k + |tokenIds| else k;
      RowAt(RowsOf(tokenIds, logprobs, ranks, decoded), k) ==
      if 0 <= at < |tokenIds| then Some(Row(tokenIds[at], Logprob(logprobs[at], ranks[at], decoded[at]))) else None
  {
  }

  lemma DictOfNone()
    ensures Dict([]) == map[]
  {
  }

  lemma DictOfMore(rows: seq<Row>, row: Row)
    ensures Dict(rows + [row]) == Dict(rows)[row.tokenId := row.info]
  {
    assert (rows + [row])[..|rows|] == rows;
  }

  lemma ReadsNone(rows: seq<Row>, start: int)
    ensures Reads(rows, start, start) == Some([])
  {
  }

  /** A range that ends before it starts reads nothing. */
  lemma ReadsPast(rows: seq<Row>, start: int, end: int, k: int)
    requires end <= k && (k <= end || k == start)
    ensures Reads(rows, start, end) == Reads(rows, start, k)
  {
  }

  lemma RowsOfPythonRange(
    tokenIds: seq<int>, logprobs: seq<real>, ranks: seq<Option<int>>, decoded: seq<Option<string>>, min: nat, max: nat)
    requires |tokenIds| == |logprobs| == |ranks| == |decoded|
    ensures
      var a, b, c, d := PythonRange(tokenIds, min, max), PythonRange(logprobs, min, max), PythonRange(ranks, min, max),
                        PythonRange(decoded, min, max);
      && |a| == |b| == |c| == |d|
      && RowsOf(a, b, c, d) == PythonRange(RowsOf(tokenIds, logprobs, ranks, decoded), min, max)
  {
  }

  lemma RowsOfRange(tokenIds: seq<int>, logprobs: seq<real>, ranks: seq<Option<int>>, decoded: seq<Option<string>>,
                    min: nat, max: nat)
    requires |tokenIds| == |logprobs| == |ranks| == |decoded| && min <= max <= |tokenIds|
    ensures RowsOf(tokenIds[min..max], logprobs[min..max], ranks[min..max], decoded[min..max]) ==
            RowsOf(tokenIds, logprobs, ranks, decoded)[min..max]
  {
  }

  /** A Python list of positions. */
  class PositionList {
    var items: seq<Option<OnePosition>>

    constructor ()
      ensures items == []
    {
      items := [];
    }

    method Append(position: Option<OnePosition>)
      modifies this
      ensures items == old(items) + [position]
    {
      items := items + [position];
    }
  }

  datatype Container = FlatForm(flat: FlatLogprobs) | ListForm(list: PositionList) {
    ghost predicate Valid()
      reads if FlatForm? then {flat as object} else {list as object}
    {
      FlatForm? ==> flat.Valid()
    }

    /** What the container reads as, a missing dictionary as an empty one. */
    ghost function Contents(): seq<OnePosition>
      requires Valid()
      reads if FlatForm? then {flat as object} else {list as object}
    {
      if FlatForm? then flat.Contents() else AllOrEmpty(list.items)
    }

    ghost function Repr(): set<object> { if FlatForm? then {flat as object} else {list as object} }
  }

  lemma ListedNext(items: seq<Option<OnePosition>>, dict: OnePosition)
    ensures AllOrEmpty(items + [Some(dict)]) == AllOrEmpty(items) + [dict]
  {
  }

  lemma ListedAppend(a: seq<Option<OnePosition>>, b: seq<Option<OnePosition>>)
    ensures AllOrEmpty(a + b) == AllOrEmpty(a) + AllOrEmpty(b)
  {
  }

  /** A list that is extended by a flat container takes its dictionaries one after the other. */
  method ExtendListByFlat(list: PositionList, other: FlatLogprobs)
    requires other.Valid()
    modifies list
    ensures AllOrEmpty(list.items) == old(AllOrEmpty(list.items)) + old(other.Contents())
  {
    ghost var start, tail := AllOrEmpty(list.items), other.Contents();
    var n := other.Len();
    assert Grown(start, tail, 0) == start && Grown(start, tail, n) == start + tail;
    hide FlatLogprobs.Valid, FlatLogprobs.Contents, AllOrEmpty, Grown;
    for i := 0 to n
      invariant other.Valid() && other.Contents() == tail && AllOrEmpty(list.items) == Grown(start, tail, i)
    {
      var position := OneOf(other, i);
      ListedNext(list.items, position);
      OneMore(start, tail, i);
      list.Append(Some(position));
    }
  }

  method OneOf(flat: FlatLogprobs, i: nat) returns (position: OnePosition)
    requires flat.Valid() && i < |flat.Contents()|
    ensures position == flat.Contents()[i]
  {
    var r := flat.GetItem(i);
    position := r.value;
  }

  /** `extend`, for both kinds of container and of argument: the container comes to read as the concatenation, also
      when it is extended by itself. */
  method ExtendLogprobs(c: Container, other: Container)
    requires c.Valid() && other.Valid()
    modifies c.Repr()
    ensures c.Valid() && c.Contents() == old(c.Contents()) + old(other.Contents())
  {
    hide FlatLogprobs.Valid, FlatLogprobs.Contents, AllOrEmpty;
    match c {
      case FlatForm(flat) =>
        match other {
          case FlatForm(more) => flat.ExtendFlat(more);
          case ListForm(more) => flat.Extend(more.items);
        }
      case ListForm(list) =>
        match other {
          case FlatForm(more) => ExtendListByFlat(list, more);
          case ListForm(more) =>
            ListedAppend(list.items, more.items);
            list.items := list.items + more.items;
        }
    }
  }

  /** `create_sample_logprobs`. */
  method CreateSampleLogprobs(flatLogprobs: bool) returns (c: Container)
    ensures c.Valid() && fresh(c.Repr()) && c.FlatForm? == flatLogprobs && c.Contents() == []
  {
    if flatLogprobs {
      var flat := new FlatLogprobs();
      c := FlatForm(flat);
    } else {
      var list := new PositionList();
      c := ListForm(list);
    }
  }

  /** `create_prompt_logprobs`: the first position has no logprobs. */
  method CreatePromptLogprobs(flatLogprobs: bool) returns (c: Container)
    ensures c.Valid() && fresh(c.Repr()) && c.FlatForm? == flatLogprobs && c.Contents() == [map[]]
  {
    if flatLogprobs {
      var flat := new FlatLogprobs();
      ghost var _ := flat.Append(None);
      c := FlatForm(flat);
    } else {
      var list := new PositionList();
      list.Append(None);
      c := ListForm(list);
    }
  }

  /** `append_logprobs_for_next_position`: both kinds of container come to read the same. */
  method AppendLogprobsForNextPosition(
    c: Container, tokenIds: seq<int>, logprobs: seq<real>, decodedTokens: Decoded, rank: int, numLogprobs: int)
    requires c.Valid()
    modifies c.Repr()
    ensures c.Valid()
    ensures
      var next := Next(tokenIds, logprobs, decodedTokens, rank, numLogprobs);
      && c.Contents() == old(c.Contents()) + [NextPosition(next)]
      && (c.FlatForm? ==> c.flat.Value() == FlatRun(old(c.flat.Value()), [next]))
  {
    var n := numLogprobs;
    if n == -1 {
      n := |logprobs|;
    }
    var ranks := [rank] + if n > 0 then seq(n, i => i + 1) else [];
    match c {
      case FlatForm(flat) =>
        flat.AppendFast(tokenIds, logprobs, ranks, decodedTokens);
      case ListForm(list) =>
        var dict := BuildDict(Zip(tokenIds, logprobs, ranks, decodedTokens));
        list.Append(Some(dict));
    }
  }

  /** The dictionary comprehension. */
  method BuildDict(rows: seq<Row>) returns (dict: OnePosition)
    ensures dict == Dict(rows)
  {
    dict := map[];
    for i := 0 to |rows|
      invariant dict == Dict(rows[..i])
    {
      assert rows[..i + 1][..i] == rows[..i];
      dict := dict[rows[i].tokenId := rows[i].info];
    }
    assert rows[..|rows|] == rows;
  }

  // ---------------------------------------------------------------------------------------
  // Runs
  // ---------------------------------------------------------------------------------------

  datatype Next = Next(tokenIds: seq<int>, logprobs: seq<real>, decodedTokens: Decoded, rank: int, numLogprobs: int)

  /** The dictionary of the next position. */
  function NextPosition(n: Next): OnePosition {
    Dict(Zip(n.tokenIds, n.logprobs, Ranks(n.rank, n.numLogprobs, n.logprobs), n.decodedTokens))
  }

  /** How many rows a step adds. */
  function NextLength(n: Next): nat {
    ZipLength(n.tokenIds, n.logprobs, Ranks(n.rank, n.numLogprobs, n.logprobs), n.decodedTokens)
  }

  /** What the next position says of a token: the logprob and the decoded token at its last occurrence among
      the zipped ones, ranked by where it occurs, except that the first one has the rank it was sampled with. */
  lemma NextPositionHolds(n: Next, tokenId: int)
    ensures
      var ranked := 1 + if n.numLogprobs == -1 then |n.logprobs| else if n.numLogprobs > 0 then n.numLogprobs else 0;
      var decoded := if n.decodedTokens.Listed? then |n.decodedTokens.tokens| else ranked;
      && NextLength(n) <= |n.tokenIds| && NextLength(n) <= |n.logprobs| && NextLength(n) <= ranked
      && NextLength(n) <= decoded
      && (NextLength(n) == |n.tokenIds| || NextLength(n) == |n.logprobs| || NextLength(n) == ranked
          || NextLength(n) == decoded)
    ensures tokenId in NextPosition(n) <==> exists i :: 0 <= i < NextLength(n) && n.tokenIds[i] == tokenId
    ensures forall i: nat | IsLastOf(n, tokenId, i) ::
              tokenId in NextPosition(n)
              && NextPosition(n)[tokenId] ==
                 Logprob(n.logprobs[i], Some(if i == 0 then n.rank else i),
                         if n.decodedTokens.Listed? then n.decodedTokens.tokens[i] else n.decodedTokens.token)
  {
    var ranks := Ranks(n.rank, n.numLogprobs, n.logprobs);
    var rows := Zip(n.tokenIds, n.logprobs, ranks, n.decodedTokens);
    DictHoldsLast(rows, tokenId);
    hide Dict;
    assert forall i | 0 <= i < |rows| :: rows[i].tokenId == n.tokenIds[i];
    forall i: nat | IsLastOf(n, tokenId, i)
      ensures tokenId in Dict(rows)
      ensures Dict(rows)[tokenId] ==
                Logprob(n.logprobs[i], Some(if i == 0 then n.rank else i), DecodedAt(n.decodedTokens, i))
    {
      assert rows[i].tokenId == tokenId;
      var j :| 0 <= j < |rows| && rows[j] == Row(tokenId, Dict(rows)[tokenId])
               && forall k | j < k < |rows| :: rows[k].tokenId != tokenId;
      assert j == i && ranks[i] == if i == 0 then n.rank else i;
    }
  }

  ghost predicate IsLastOf(n: Next, tokenId: int, i: nat) {
    && i < NextLength(n) && (n.decodedTokens.Listed? ==> i < |n.decodedTokens.tokens|)
    && n.tokenIds[i] == tokenId && forall j | i < j < NextLength(n) :: n.tokenIds[j] != tokenId
  }

  function NextPositions(steps: seq<Next>): seq<OnePosition> {
    seq(|steps|, i requires 0 <= i < |steps| => NextPosition(steps[i]))
  }

  /** The flat form after a run of appends. */
  function FlatRun(f: Flat, steps: seq<Next>): Flat {
    if steps == [] then f
    else
      var n := steps[|steps| - 1];
      Appended(FlatRun(f, steps[..|steps| - 1]),
               Zip(n.tokenIds, n.logprobs, Ranks(n.rank, n.numLogprobs, n.logprobs), n.decodedTokens))
  }

  /** Any run of appends leaves the flat form reading like the list of dictionaries, with ranges that tile it. */
  lemma {:induction false} FlatRunReadsLikeList(f: Flat, steps: seq<Next>)
    requires WellFormed(f)
    ensures WellFormed(FlatRun(f, steps)) && View(FlatRun(f, steps)) == View(f) + NextPositions(steps)
    ensures Tiled(f) ==> Tiled(FlatRun(f, steps))
    decreases |steps|
  {
    if steps == [] {
      assert View(f) + [] == View(f);
    } else {
      hide WellFormed, Tiled, Appended, View, Zip, Dict;
      var rest, n := steps[..|steps| - 1], steps[|steps| - 1];
      FlatRunReadsLikeList(f, rest);
      var rows := Zip(n.tokenIds, n.logprobs, Ranks(n.rank, n.numLogprobs, n.logprobs), n.decodedTokens);
      AppendViews(FlatRun(f, rest), rows);
      if Tiled(f) { AppendTiles(FlatRun(f, rest), rows); }
      assert NextPositions(steps) == NextPositions(rest) + [NextPosition(n)];
      assert View(f) + (NextPositions(rest) + [NextPosition(n)]) == View(f) + NextPositions(rest) + [NextPosition(n)];
    }
  }
}
