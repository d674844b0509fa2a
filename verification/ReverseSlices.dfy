/** Slices of flat logprobs with a negative step (overlay/vllm/logprobs.py). They span their rows from the first
    picked position to the last one, which lies before it, and so come out empty. */
module ReverseSlices {
  import opened Wrappers
  import opened Logprobs

  /** The positions first, first - step, ... of a slice whose step is -step. */
  datatype Descent = Descent(first: int, step: nat, count: nat)

  function PosDown(p: Descent, k: nat): int { p.first - k * p.step }

  function BoundDown(i: Option<int>, otherwise: int, length: nat): (r: int)
    ensures -1 <= otherwise < length ==> -1 <= r < length
  {
    if i.None? then otherwise
    else if i.value < 0 then (if i.value + length < -1 then -1 else i.value + length)
    else if i.value >= length then length - 1
    else i.value
  }

  /** How a slice object with a negative step applies to a list of this length. */
  function DescentOf(start: Option<int>, stop: Option<int>, step: nat, length: nat): Descent
    requires step > 0
  {
    var hi, lo := BoundDown(start, length - 1, length), BoundDown(stop, -1, length);
    Descent(hi, step, if lo < hi then (hi - lo - 1) / step + 1 else 0)
  }

  /** All picked positions lie in the list. */
  predicate WithinDown(p: Descent, length: nat) {
    p.step > 0 && (p.count > 0 ==> p.first < length && 0 <= PosDown(p, p.count - 1))
  }

  /** A slice picks exactly the positions from its start down to its stop, without it, that are whole steps away from
      the first one. A negative start or stop counts from the end, and one that is left out or lies outside the list
      bounds nothing. */
  lemma DescentIsTheSlice(start: Option<int>, stop: Option<int>, step: nat, length: nat, i: nat)
    requires step > 0
    ensures WithinDown(DescentOf(start, stop, step, length), length)
    ensures DescentOf(start, stop, step, length).step == step
    ensures
      var p := DescentOf(start, stop, step, length);
      var from := start.None? || i <= if start.value < 0 then start.value + length else start.value;
      var above := stop.None? || i > if stop.value < 0 then stop.value + length else stop.value;
      && ((exists k: nat :: k < p.count && PosDown(p, k) == i) <==>
          i < length && from && above && i <= p.first && (p.first - i) % step == 0)
      && (i < length && from && above ==> p.count > 0 && i <= p.first)
  {
    DescentBetweenBounds(start, stop, step, length, i);
  }

  lemma DescentBetweenBounds(start: Option<int>, stop: Option<int>, step: nat, length: nat, i: nat)
    requires step > 0
    ensures WithinDown(DescentOf(start, stop, step, length), length)
    ensures
      var p := DescentOf(start, stop, step, length);
      var hi, lo := BoundDown(start, length - 1, length), BoundDown(stop, -1, length);
      (exists k: nat :: k < p.count && PosDown(p, k) == i) <==> lo < i <= hi && (hi - i) % step == 0
  {
    var p := DescentOf(start, stop, step, length);
    var hi, lo := BoundDown(start, length - 1, length), BoundDown(stop, -1, length);
    assert -1 <= lo && hi < length;
    hide BoundDown;
    if lo < hi {
      CountReaches(hi - lo, step);
      if exists k: nat :: k < p.count && PosDown(p, k) == i {
        var k: nat :| k < p.count && PosDown(p, k) == i;
        DownAboveLast(p, k);
        WholeSteps(hi - i, step, k);
      }
      if lo < i <= hi && (hi - i) % step == 0 {
        var k := (hi - i) / step;
        assert k * step == hi - i by { Division(hi - i, step); }
        CountCovers(k, hi - lo, step);
        assert PosDown(p, k) == i;
      }
    }
  }

  lemma DownAboveLast(p: Descent, k: nat)
    requires k < p.count
    ensures PosDown(p, p.count - 1) <= PosDown(p, k) <= p.first
  {
    assert k * p.step <= (p.count - 1) * p.step;
  }

  lemma DownDecreases(p: Descent, j: nat, k: nat)
    requires p.step > 0 && j < k
    ensures PosDown(p, k) < PosDown(p, j)
  {
    Multiples(j, k, p.step);
  }

  lemma DownInRange(p: Descent, length: nat, k: nat)
    requires WithinDown(p, length) && k < p.count
    ensures 0 <= PosDown(p, k) < length
  {
    DownAboveLast(p, k);
  }

  /** The k-th picked position of a list. */
  function Place(p: Descent, length: nat, k: nat): (i: nat)
    requires WithinDown(p, length) && k < p.count
    ensures i < length
  {
    DownInRange(p, length, k);
    PosDown(p, k)
  }

  function PickDown<T>(s: seq<T>, p: Descent): (r: seq<T>)
    requires WithinDown(p, |s|)
    ensures |r| == p.count
  {
    seq(p.count, k requires 0 <= k < p.count => s[Place(p, |s|, k)])
  }

  /** A slice object: its ranges need not lie in its rows. */
  datatype Slice = Slice(starts: seq<int>, ends: seq<int>, rows: seq<Row>)

  /** `s[min:max]` for bounds that are not negative. */
  function PythonRange<T>(s: seq<T>, min: nat, max: nat): seq<T> {
    var hi := if max < |s| then max else |s|;
    if min < hi then s[min..hi] else []
  }

  function Moved(s: seq<nat>, min: nat): seq<int> { seq(|s|, i requires 0 <= i < |s| => s[i] - min) }

  /** `__getitem__` of a slice that is not empty, for a negative step. */
  function SlicedDown(f: Flat, p: Descent): Slice
    requires WellFormed(f) && WithinDown(p, |f.starts|) && p.count > 0
  {
    var starts, ends := PickDown(f.starts, p), PickDown(f.ends, p);
    var min, max := starts[0], ends[p.count - 1];
    Slice(Moved(starts, min), Moved(ends, min), PythonRange(f.rows, min, max))
  }

  /** `s[i]`: negative indices count from the end; None for an IndexError. */
  function RowAt(rows: seq<Row>, i: int): Option<Row> {
    if 0 <= i < |rows| then Some(rows[i])
    else if -|rows| <= i < 0 then Some(rows[|rows| + i])
    else None
  }

  /** The rows a position reads. */
  function Reads(rows: seq<Row>, start: int, end: int): Option<seq<Row>>
    decreases end - start
  {
    if start >= end then Some([]) else
      match (Reads(rows, start, end - 1), RowAt(rows, end - 1))
      case (Some(before), Some(row)) => Some(before + [row])
      case _ => None
  }

  /** The dictionary comprehension over a range of rows. */
  function ReadDict(rows: seq<Row>, start: int, end: int): Option<OnePosition> {
    match Reads(rows, start, end)
    case None => None
    case Some(read) => Some(Dict(read))
  }

  /** `__getitem__` of position k. */
  function Position(s: Slice, k: nat): Option<OnePosition>
    requires k < |s.starts| && k < |s.ends|
  {
    ReadDict(s.rows, s.starts[k], s.ends[k])
  }

  lemma {:induction false} ReadsInside(rows: seq<Row>, start: nat, end: nat)
    requires start <= end <= |rows|
    ensures Reads(rows, start, end) == Some(rows[start..end])
    decreases end - start
  {
    if start < end {
      ReadsInside(rows, start, end - 1);
      assert rows[start..end] == rows[start..end - 1] + [rows[end - 1]];
    } else {
      assert rows[start..end] == [];
    }
  }

  /** A range that can not be read can not be read further. */
  lemma {:induction false} ReadsFail(rows: seq<Row>, start: int, middle: int, end: int)
    requires middle <= end && Reads(rows, start, middle) == None
    ensures Reads(rows, start, end) == None
    decreases end - middle
  {
    if middle < end {
      ReadsFail(rows, start, middle, end - 1);
      hide RowAt;
    }
  }

  lemma ReadsNext(rows: seq<Row>, start: int, end: int)
    requires start <= end
    ensures Reads(rows, start, end + 1) ==
            if Reads(rows, start, end).Some? && RowAt(rows, end).Some?
            then Some(Reads(rows, start, end).value + [RowAt(rows, end).value]) else None
  {
    hide RowAt;
  }

  /** A form whose ranges lie in its rows reads as its dictionaries. */
  lemma PositionReads(f: Flat, i: nat)
    requires WellFormed(f) && i < |f.starts|
    ensures Position(Slice(f.starts, f.ends, f.rows), i) == Some(PositionAt(f, i))
  {
    ReadsInside(f.rows, f.starts[i], f.ends[i]);
    hide Reads, Dict;
  }

  lemma NothingToRead(rows: seq<Row>, start: int, end: int)
    requires rows == []
    ensures Reads(rows, start, end) == if start >= end then Some([]) else None
  {
  }

  lemma DownParts(f: Flat, p: Descent, k: nat)
    requires WellFormed(f) && WithinDown(p, |f.starts|) && k < p.count
    ensures
      var s, n := SlicedDown(f, p), |f.starts|;
      var first, last, i := Place(p, n, 0), Place(p, n, p.count - 1), Place(p, n, k);
      && k < |s.starts| == |s.ends| && |f.ends| == n
      && s.starts[k] + f.starts[first] == f.starts[i] && s.ends[k] + f.starts[first] == f.ends[i]
      && s.rows == PythonRange(f.rows, f.starts[first], f.ends[last])
  {
    hide Place, PythonRange, WithinDown;
  }

  predicate IsEmpty(f: Flat, i: nat)
    requires i < |f.starts| == |f.ends|
  {
    f.starts[i] == f.ends[i]
  }

  /** With several picked positions the rows are gone. */
  lemma RowsAreGone(f: Flat, p: Descent)
    requires WellFormed(f) && WithinDown(p, |f.starts|) && p.count > 1
    ensures SlicedDown(f, p).rows == []
  {
    DownParts(f, p, 0);
    DownDecreases(p, 0, p.count - 1);
    hide PosDown, SlicedDown, WithinDown;
    assert Place(p, |f.starts|, p.count - 1) < Place(p, |f.starts|, 0);
    hide Place;
  }

  lemma OnePositionReads(f: Flat, p: Descent)
    requires WellFormed(f) && WithinDown(p, |f.starts|) && p.count == 1
    ensures |SlicedDown(f, p).starts| == |SlicedDown(f, p).ends| == 1
    ensures Position(SlicedDown(f, p), 0) == Some(PositionAt(f, Place(p, |f.starts|, 0)))
  {
    DownParts(f, p, 0);
    hide Place, Dict, WithinDown;
    var s, i := SlicedDown(f, p), Place(p, |f.starts|, 0);
    assert f.starts[i] <= f.ends[i] <= |f.rows|;
    assert s.rows == f.rows[f.starts[i]..f.ends[i]] && s.starts[0] == 0 && s.ends[0] == |s.rows|;
    ReadsInside(s.rows, 0, |s.rows|);
    assert s.rows[0..|s.rows|] == s.rows;
    hide Reads;
  }

  lemma ManyPositionsRead(f: Flat, p: Descent, k: nat)
    requires WellFormed(f) && WithinDown(p, |f.starts|) && p.count > 1 && k < p.count
    ensures k < |SlicedDown(f, p).starts| == |SlicedDown(f, p).ends|
    ensures var i := Place(p, |f.starts|, k);
            Position(SlicedDown(f, p), k) == if IsEmpty(f, i) then Some(PositionAt(f, i)) else None
  {
    DownParts(f, p, k);
    RowsAreGone(f, p);
    hide Place, SlicedDown, Dict, WithinDown;
    var s, i := SlicedDown(f, p), Place(p, |f.starts|, k);
    NothingToRead(s.rows, s.starts[k], s.ends[k]);
    hide Reads;
    assert f.starts[i] <= f.ends[i];
    assert f.starts[i] == f.ends[i] ==> f.rows[f.starts[i]..f.ends[i]] == [];
  }

  /** A slice with a negative step reads as the slice of the list exactly when it picks one position, or only
      empty ones. A position that is not empty cannot be read otherwise. */
  lemma ReverseSliceReads(f: Flat, p: Descent)
    requires WellFormed(f) && WithinDown(p, |f.starts|) && p.count > 0
    ensures |SlicedDown(f, p).starts| == |SlicedDown(f, p).ends| == |PickDown(View(f), p)| == p.count
    ensures (forall k | 0 <= k < p.count :: Position(SlicedDown(f, p), k) == Some(PickDown(View(f), p)[k])) <==>
            p.count == 1 || forall k | 0 <= k < p.count :: IsEmpty(f, Place(p, |f.starts|, k))
  {
    assert forall k | 0 <= k < p.count :: PickDown(View(f), p)[k] == PositionAt(f, Place(p, |f.starts|, k));
    hide Place, Position, PickDown, IsEmpty, PositionAt, WellFormed;
    if p.count == 1 {
      OnePositionReads(f, p);
    } else {
      forall k | 0 <= k < p.count
        ensures Position(SlicedDown(f, p), k) ==
                if IsEmpty(f, Place(p, |f.starts|, k)) then Some(PositionAt(f, Place(p, |f.starts|, k))) else None
      {
        ManyPositionsRead(f, p, k);
      }
    }
  }
}
