/** Logprobs of many positions in flat parallel lists, and what they stand for: a list of dictionaries
    (overlay/vllm/logprobs.py). This module holds the values; the classes are in FlatLogprobs. */
module Logprobs {
  import opened Wrappers

  datatype Logprob = Logprob(logprob: real, rank: Option<int>, decodedToken: Option<string>)

  type OnePosition = map<int, Logprob>

  datatype Row = Row(tokenId: int, info: Logprob)

  /** A dictionary comprehension: of two rows with one token id the last wins. */
  function Dict(rows: seq<Row>): OnePosition {
    if rows == [] then map[] else Dict(rows[..|rows| - 1])[rows[|rows| - 1].tokenId := rows[|rows| - 1].info]
  }

  /** What a dictionary comprehension holds: for each token id that occurs, its last row. */
  lemma {:induction false} DictHoldsLast(rows: seq<Row>, tokenId: int)
    ensures tokenId in Dict(rows) <==> exists i :: 0 <= i < |rows| && rows[i].tokenId == tokenId
    ensures tokenId in Dict(rows) ==>
              exists i :: 0 <= i < |rows| && rows[i] == Row(tokenId, Dict(rows)[tokenId])
                          && forall j | i < j < |rows| :: rows[j].tokenId != tokenId
    decreases |rows|
  {
    if rows != [] {
      var n := |rows| - 1;
      DictHoldsLast(rows[..n], tokenId);
      if rows[n].tokenId != tokenId && tokenId in Dict(rows[..n]) {
        var i :| 0 <= i < n && rows[..n][i] == Row(tokenId, Dict(rows[..n])[tokenId])
                 && forall j | i < j < n :: rows[..n][j].tokenId != tokenId;
        assert rows[i] == Row(tokenId, Dict(rows)[tokenId]);
        forall j | i < j < |rows| ensures rows[j].tokenId != tokenId {
          if j < n { assert rows[..n][j] == rows[j]; }
        }
      } else if tokenId in Dict(rows) {
        assert rows[n] == Row(tokenId, Dict(rows)[tokenId]);
      }
    }
  }

  // ---------------------------------------------------------------------------------------
  // The flat form
  // ---------------------------------------------------------------------------------------

  datatype Flat = Flat(starts: seq<nat>, ends: seq<nat>, rows: seq<Row>)

  /** The ranges lie in the rows one after the other; a slice can leave gaps between them. */
  ghost predicate WellFormed(f: Flat) {
    && |f.starts| == |f.ends|
    && (forall i | 0 <= i < |f.starts| :: f.starts[i] <= f.ends[i] <= |f.rows|)
    && (forall i, j | 0 <= i < j < |f.starts| :: f.ends[i] <= f.starts[j])
  }

  /** The ranges tile the rows: no gap, nothing left over. */
  ghost predicate Tiled(f: Flat) {
    && WellFormed(f)
    && (f.starts == [] ==> f.rows == [])
    && (f.starts != [] ==> f.starts[0] == 0 && f.ends[|f.ends| - 1] == |f.rows|)
    && (forall i | 0 < i < |f.starts| :: Touches(f.starts, f.ends, i))
  }

  predicate Touches(starts: seq<nat>, ends: seq<nat>, i: nat)
    requires 0 < i < |starts| == |ends|
  {
    starts[i] == ends[i - 1]
  }

  function PositionAt(f: Flat, i: nat): OnePosition
    requires WellFormed(f) && i < |f.starts|
  {
    Dict(f.rows[f.starts[i]..f.ends[i]])
  }

  /** The list of dictionaries a flat form stands for. */
  function View(f: Flat): (v: seq<OnePosition>)
    requires WellFormed(f)
  {
    seq(|f.starts|, i requires 0 <= i < |f.starts| => PositionAt(f, i))
  }

  function Appended(f: Flat, rows: seq<Row>): Flat {
    Flat(f.starts + [|f.rows|], f.ends + [|f.rows| + |rows|], f.rows + rows)
  }

  lemma AppendViews(f: Flat, rows: seq<Row>)
    requires WellFormed(f)
    ensures WellFormed(Appended(f, rows)) && View(Appended(f, rows)) == View(f) + [Dict(rows)]
  {
    var g := Appended(f, rows);
    forall i | 0 <= i < |f.starts| ensures PositionAt(g, i) == PositionAt(f, i) {
      assert g.rows[f.starts[i]..f.ends[i]] == f.rows[f.starts[i]..f.ends[i]];
    }
    assert g.rows[|f.rows|..|f.rows| + |rows|] == rows;
    hide Dict;
  }

  lemma AppendTiles(f: Flat, rows: seq<Row>)
    requires Tiled(f)
    ensures Tiled(Appended(f, rows))
  {
    var g := Appended(f, rows);
    forall i | 0 < i < |g.starts| ensures Touches(g.starts, g.ends, i) {
      if i < |f.starts| { assert Touches(f.starts, f.ends, i); }
    }
    hide Touches;
  }

  // ---------------------------------------------------------------------------------------
  // Slices with a positive step
  // ---------------------------------------------------------------------------------------

  /** The positions first, first + step, ... of a slice. */
  datatype Picks = Picks(first: nat, step: nat, count: nat)

  function Bound(i: Option<int>, otherwise: nat, length: nat): (r: nat)
    ensures otherwise <= length ==> r <= length
  {
    if i.None? then otherwise
    else if i.value < 0 then (if i.value + length < 0 then 0 else i.value + length)
    else if i.value > length then length
    else i.value
  }

  /** How a slice object applies to a list of this length. */
  function PicksOf(start: Option<int>, stop: Option<int>, step: nat, length: nat): Picks
    requires step > 0
  {
    var lo, hi := Bound(start, 0, length), Bound(stop, length, length);
    Picks(lo, step, if lo < hi then (hi - lo - 1) / step + 1 else 0)
  }

  function Pos(p: Picks, k: nat): nat { p.first + k * p.step }

  /** All picked positions lie in the list. */
  predicate Within(p: Picks, length: nat) { p.step > 0 && (p.count > 0 ==> Pos(p, p.count - 1) < length) }

  lemma PosBelowLast(p: Picks, k: nat)
    requires k < p.count
    ensures Pos(p, k) <= Pos(p, p.count - 1)
    ensures k + 1 < p.count && p.step > 0 ==> Pos(p, k) < Pos(p, k + 1)
  {
    assert k * p.step <= (p.count - 1) * p.step;
    assert (k + 1) * p.step == k * p.step + p.step;
  }

  lemma PosIncreases(p: Picks, j: nat, k: nat)
    requires p.step > 0 && j < k
    ensures Pos(p, j) < Pos(p, k)
  {
    assert (j + 1) * p.step == j * p.step + p.step;
    assert (j + 1) * p.step <= k * p.step;
  }

  /** A slice picks exactly the positions from its start, before its stop, that are whole steps away from the first
      one. A negative start or stop counts from the end, and one that is left out or lies outside the list bounds
      nothing. */
  lemma PicksAreTheSlice(start: Option<int>, stop: Option<int>, step: nat, length: nat, i: nat)
    requires step > 0
    ensures Within(PicksOf(start, stop, step, length), length) && PicksOf(start, stop, step, length).step == step
    ensures
      var p := PicksOf(start, stop, step, length);
      var from := start.None? || i >= if start.value < 0 then start.value + length else start.value;
      var before := stop.None? || i < if stop.value < 0 then stop.value + length else stop.value;
      && ((exists k: nat :: k < p.count && Pos(p, k) == i) <==>
          i < length && from && before && p.first <= i && (i - p.first) % step == 0)
      && (i < length && from && before ==> p.count > 0 && p.first <= i)
  {
    PicksBetweenBounds(start, stop, step, length, i);
  }

  lemma PicksBetweenBounds(start: Option<int>, stop: Option<int>, step: nat, length: nat, i: nat)
    requires step > 0
    ensures Within(PicksOf(start, stop, step, length), length)
    ensures
      var p, lo, hi := PicksOf(start, stop, step, length), Bound(start, 0, length), Bound(stop, length, length);
      (exists k: nat :: k < p.count && Pos(p, k) == i) <==> lo <= i < hi && (i - lo) % step == 0
  {
    var p, lo, hi := PicksOf(start, stop, step, length), Bound(start, 0, length), Bound(stop, length, length);
    hide Bound;
    if lo < hi {
      CountReaches(hi - lo, step);
      if exists k: nat :: k < p.count && Pos(p, k) == i {
        var k: nat :| k < p.count && Pos(p, k) == i;
        PosBelowLast(p, k);
        WholeSteps(i - lo, step, k);
      }
      if lo <= i < hi && (i - lo) % step == 0 {
        var k := (i - lo) / step;
        assert k * step == i - lo by { Division(i - lo, step); }
        CountCovers(k, hi - lo, step);
        assert Pos(p, k) == i;
      }
    }
  }

  lemma Division(n: nat, step: nat)
    requires step > 0
    ensures n == (n / step) * step + n % step && n % step < step
  {
  }

  lemma CountReaches(n: nat, step: nat)
    requires step > 0 && n > 0
    ensures ((n - 1) / step) * step < n
  {
    Division(n - 1, step);
  }

  lemma CountCovers(k: nat, n: nat, step: nat)
    requires step > 0 && k * step < n
    ensures k < (n - 1) / step + 1
  {
    Division(n - 1, step);
    Multiples((n - 1) / step, k, step);
  }

  lemma Multiples(a: nat, b: nat, step: nat)
    ensures a < b ==> a * step + step <= b * step
  {
    if a < b { assert (a + 1) * step <= b * step; }
  }

  lemma WholeSteps(n: nat, step: nat, k: nat)
    requires step > 0 && n == k * step
    ensures n % step == 0
  {
    Division(n, step);
    Multiples(n / step, k, step);
    Multiples(k, n / step, step);
  }

  function Pick<T>(s: seq<T>, p: Picks): (r: seq<T>)
    requires Within(p, |s|)
  {
    seq(p.count, k requires 0 <= k < p.count => (PosBelowLast(p, k); s[Pos(p, k)]))
  }

  lemma PickAt<T>(s: seq<T>, p: Picks, k: nat)
    requires Within(p, |s|) && k < p.count
    ensures |Pick(s, p)| == p.count && Pos(p, k) < |s| && Pick(s, p)[k] == s[Pos(p, k)]
  {
    PosBelowLast(p, k);
  }

  function Shift(s: seq<nat>, min: nat): seq<nat>
    requires forall i | 0 <= i < |s| :: min <= s[i]
  {
    seq(|s|, i requires 0 <= i < |s| => s[i] - min)
  }

  /** `__getitem__` of a non-empty slice: the picked ranges, moved to start at zero, over the rows they span. */
  function Sliced(f: Flat, p: Picks): Flat
    requires WellFormed(f) && Within(p, |f.starts|) && p.count > 0
  {
    PickedSpan(f, p);
    var starts, ends := Pick(f.starts, p), Pick(f.ends, p);
    var min, max := starts[0], ends[p.count - 1];
    Flat(Shift(starts, min), Shift(ends, min), f.rows[min..max])
  }

  lemma PickedSpan(f: Flat, p: Picks)
    requires WellFormed(f) && Within(p, |f.starts|) && p.count > 0
    ensures
      var starts, ends := Pick(f.starts, p), Pick(f.ends, p);
      && |starts| == |ends| == p.count
      && starts[0] <= ends[p.count - 1] <= |f.rows|
      && (forall k | 0 <= k < p.count :: starts[0] <= starts[k] <= ends[k] <= ends[p.count - 1])
      && (forall j, k | 0 <= j < k < p.count :: ends[j] <= starts[k])
  {
    var starts, ends := Pick(f.starts, p), Pick(f.ends, p);
    forall k | 0 <= k < p.count
      ensures Pos(p, k) < |f.starts| && starts[k] == f.starts[Pos(p, k)] && ends[k] == f.ends[Pos(p, k)]
      ensures starts[k] <= ends[k] <= |f.rows|
    {
      PosBelowLast(p, k);
    }
    forall j, k | 0 <= j < k < p.count ensures ends[j] <= starts[k] { PosIncreases(p, j, k); }
  }

  /** The range of a picked position, moved. */
  lemma SlicedRange(f: Flat, p: Picks, k: nat)
    requires WellFormed(f) && Within(p, |f.starts|) && k < p.count
    ensures
      var g := Sliced(f, p);
      && k < |g.starts| == |g.ends| && Pos(p, k) < |f.starts|
      && g.starts[k] == f.starts[Pos(p, k)] - Pick(f.starts, p)[0] <= g.ends[k]
      && g.ends[k] == f.ends[Pos(p, k)] - Pick(f.starts, p)[0] <= |g.rows|
      && g.rows[g.starts[k]..g.ends[k]] == f.rows[f.starts[Pos(p, k)]..f.ends[Pos(p, k)]]
  {
    PickedSpan(f, p);
    PickAt(f.starts, p, k);
    PickAt(f.ends, p, k);
    var starts, ends := Pick(f.starts, p), Pick(f.ends, p);
    hide Pick, Pos, Within, WellFormed;
    SubRange(f.rows, starts[0], ends[p.count - 1], starts[k], ends[k]);
  }

  lemma SliceIsWellFormed(f: Flat, p: Picks)
    requires WellFormed(f) && Within(p, |f.starts|) && p.count > 0
    ensures WellFormed(Sliced(f, p)) && |Sliced(f, p).starts| == p.count
  {
    PickedSpan(f, p);
    hide Pick, Pos, Within;
  }

  /** Slicing commutes with the view. */
  lemma SliceViews(f: Flat, p: Picks)
    requires WellFormed(f) && Within(p, |f.starts|) && p.count > 0
    ensures WellFormed(Sliced(f, p)) && View(Sliced(f, p)) == Pick(View(f), p)
  {
    SliceIsWellFormed(f, p);
    var g := Sliced(f, p);
    assert |Pick(View(f), p)| == p.count;
    forall k | 0 <= k < p.count
      ensures PositionAt(g, k) == Pick(View(f), p)[k]
    {
      hide Pick, Pos, Within, WellFormed, Sliced;
      SlicedRange(f, p, k);
      PickAt(View(f), p, k);
    }
    hide Pick, Pos, Within, WellFormed, Sliced;
  }

  lemma SubRange<T>(s: seq<T>, min: nat, max: nat, from: nat, to: nat)
    requires min <= from <= to <= max <= |s|
    ensures s[min..max][from - min..to - min] == s[from..to]
  {
    var t := s[min..max];
    var a, b := t[from - min..to - min], s[from..to];
    assert |a| == |b|;
    forall k | 0 <= k < |a| ensures a[k] == b[k] {
      assert a[k] == t[from - min + k] == s[from + k];
    }
  }

  /** A slice of a slice is one slice. */
  function Compose(p: Picks, q: Picks): Picks { Picks(Pos(p, q.first), p.step * q.step, q.count) }

  lemma ComposedPos(p: Picks, q: Picks, k: nat)
    ensures Pos(Compose(p, q), k) == Pos(p, Pos(q, k))
  {
    assert k * (p.step * q.step) == (k * q.step) * p.step;
    assert (q.first + k * q.step) * p.step == q.first * p.step + (k * q.step) * p.step;
  }

  lemma PickShift(s: seq<nat>, min: nat, q: Picks)
    requires Within(q, |s|) && forall i | 0 <= i < |s| :: min <= s[i]
    ensures |Pick(s, q)| == q.count && forall i | 0 <= i < q.count :: min <= Pick(s, q)[i]
    ensures Pick(Shift(s, min), q) == Shift(Pick(s, q), min)
  {
    forall k | 0 <= k < q.count ensures Pos(q, k) < |s| { PosBelowLast(q, k); }
    hide Pos;
  }

  lemma PickPick(s: seq<nat>, p: Picks, q: Picks)
    requires Within(p, |s|) && Within(q, p.count) && Within(Compose(p, q), |s|)
    ensures |Pick(s, p)| == p.count && Pick(Pick(s, p), q) == Pick(s, Compose(p, q))
  {
    var c := Compose(p, q);
    assert c.count == q.count;
    forall k | 0 <= k < q.count
      ensures Pick(Pick(s, p), q)[k] == Pick(s, c)[k]
    {
      hide Pick, Within, Compose;
      PickAt(Pick(s, p), q, k);
      PickAt(s, p, Pos(q, k));
      PickAt(s, c, k);
      ComposedPos(p, q, k);
    }
    hide Pos, Within, Compose;
  }

  lemma ShiftShift(s: seq<nat>, min: nat, more: nat)
    requires forall i | 0 <= i < |s| :: min + more <= s[i]
    ensures Shift(Shift(s, min), more) == Shift(s, min + more)
  {
  }

  lemma SliceParts(f: Flat, p: Picks)
    requires WellFormed(f) && Within(p, |f.starts|) && p.count > 0
    ensures Spans(Pick(f.starts, p), Pick(f.ends, p), p.count, |f.rows|)
    ensures
      var starts, ends := Pick(f.starts, p), Pick(f.ends, p);
      Sliced(f, p) == Flat(Shift(starts, starts[0]), Shift(ends, starts[0]), f.rows[starts[0]..ends[p.count - 1]])
  {
    PickedSpan(f, p);
    hide Pick, Within, WellFormed;
  }

  ghost predicate Spans(starts: seq<nat>, ends: seq<nat>, count: nat, size: nat) {
    && |starts| == |ends| == count > 0
    && starts[0] <= ends[count - 1] <= size
    && forall k | 0 <= k < count :: starts[0] <= starts[k] && ends[k] <= ends[count - 1] && starts[0] <= ends[k]
  }

  /** A slice without gaps of a form without gaps has no gaps. */
  lemma SliceStaysTiled(f: Flat, p: Picks)
    requires Tiled(f) && Within(p, |f.starts|) && p.count > 0 && p.step == 1
    ensures Tiled(Sliced(f, p))
  {
    SliceIsWellFormed(f, p);
    SliceParts(f, p);
    var g := Sliced(f, p);
    forall k | 0 < k < p.count
      ensures Touches(g.starts, g.ends, k)
    {
      Adjacent(f, p, k);
      hide Pick, Pos, Within, Sliced, WellFormed, Tiled;
    }
    hide Pick, Pos, Within, Sliced, WellFormed, Touches;
  }

  lemma Adjacent(f: Flat, p: Picks, k: nat)
    requires Tiled(f) && Within(p, |f.starts|) && 0 < k < p.count && p.step == 1
    ensures |Pick(f.starts, p)| == |Pick(f.ends, p)| == p.count
    ensures Pick(f.starts, p)[k] == Pick(f.ends, p)[k - 1]
  {
    assert Pos(p, k) == Pos(p, k - 1) + 1;
    PickAt(f.starts, p, k);
    PickAt(f.ends, p, k - 1);
    assert Touches(f.starts, f.ends, Pos(p, k));
    hide Pick, Pos, Within;
  }

  lemma SliceOfSlice(f: Flat, p: Picks, q: Picks)
    requires WellFormed(f) && Within(p, |f.starts|) && p.count > 0 && Within(q, p.count) && q.count > 0
    ensures WellFormed(Sliced(f, p)) && |Sliced(f, p).starts| == p.count
    ensures Within(Compose(p, q), |f.starts|)
    ensures Sliced(Sliced(f, p), q) == Sliced(f, Compose(p, q))
  {
    assert |f.starts| == |f.ends|;
    hide Pick, Pos, Within, WellFormed, Sliced, Compose, Shift;
    SliceIsWellFormed(f, p);
    ComposedWithin(p, q, |f.starts|);
    var g, c := Sliced(f, p), Compose(p, q);
    ComposedCount(p, q);
    SliceParts(f, p);
    SliceParts(f, c);
    var S, E, C, D := Pick(f.starts, p), Pick(f.ends, p), Pick(f.starts, c), Pick(f.ends, c);
    PickPick(f.starts, p, q);
    PickPick(f.ends, p, q);
    PickShift(S, S[0], q);
    PickShift(E, S[0], q);
    SliceParts(g, q);
    PickedBelow(E, q, q.count - 1, E[p.count - 1]);
    SpansBounds(C, D, q.count, |f.rows|);
    PickedAbove(S, q, 0, S[0]);
    Rebased(f.rows, S[0], E[p.count - 1], C, D);
  }

  lemma SpansBounds(starts: seq<nat>, ends: seq<nat>, count: nat, size: nat)
    requires Spans(starts, ends, count, size)
    ensures |starts| == |ends| == count > 0
    ensures forall k | 0 <= k < count :: starts[0] <= starts[k] && starts[0] <= ends[k]
  {
  }

  /** Moving ranges twice, and cutting rows twice. */
  lemma Rebased(rows: seq<Row>, min: nat, max: nat, C: seq<nat>, D: seq<nat>)
    requires |C| == |D| > 0 && min <= C[0] <= D[|D| - 1] <= max <= |rows|
    requires forall k | 0 <= k < |C| :: C[0] <= C[k] && C[0] <= D[k]
    ensures
      var starts, ends := Shift(C, min), Shift(D, min);
      && (forall k | 0 <= k < |C| :: starts[0] <= starts[k] && starts[0] <= ends[k])
      && Shift(starts, starts[0]) == Shift(C, C[0]) && Shift(ends, starts[0]) == Shift(D, C[0])
      && rows[min..max][starts[0]..ends[|D| - 1]] == rows[C[0]..D[|D| - 1]]
  {
    ShiftShift(C, min, C[0] - min);
    ShiftShift(D, min, C[0] - min);
    SubRange(rows, min, max, C[0], D[|D| - 1]);
  }

  lemma PickedAbove(s: seq<nat>, q: Picks, k: nat, min: nat)
    requires Within(q, |s|) && k < q.count && forall i | 0 <= i < |s| :: min <= s[i]
    ensures |Pick(s, q)| == q.count && min <= Pick(s, q)[k]
  {
    PickAt(s, q, k);
  }

  lemma PickedBelow(s: seq<nat>, q: Picks, k: nat, max: nat)
    requires Within(q, |s|) && k < q.count && forall i | 0 <= i < |s| :: s[i] <= max
    ensures |Pick(s, q)| == q.count && Pick(s, q)[k] <= max
  {
    PickAt(s, q, k);
  }

  lemma ComposedCount(p: Picks, q: Picks)
    ensures Compose(p, q).count == q.count
  {
  }

  lemma ComposedWithin(p: Picks, q: Picks, length: nat)
    requires Within(p, length) && p.count > 0 && Within(q, p.count) && q.count > 0
    ensures Within(Compose(p, q), length)
  {
    assert p.step * q.step > 0;
    ComposedPos(p, q, q.count - 1);
    PosBelowLast(p, Pos(q, q.count - 1));
  }
}
