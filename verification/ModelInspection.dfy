/** The collapsing printer for module trees (overlay/vllm/model_inspection.py). */
module ModelInspection {
  import opened Common
  import opened Integers
  import opened Text

  /** A module: its one-line description, and its named children in registration order. */
  datatype Module = Module(info: string, children: seq<Child>)

  datatype Child = Child(name: string, module_: Module)

  function Size(m: Module): nat { 1 + Sizes(m.children) }

  function Sizes(cs: seq<Child>): nat { if cs == [] then 0 else Size(cs[0].module_) + Sizes(cs[1..]) }

  lemma {:induction false} ChildIsSmaller(cs: seq<Child>, i: nat)
    requires i < |cs|
    ensures Size(cs[i].module_) <= Sizes(cs)
    decreases |cs|
  {
    if i > 0 {
      ChildIsSmaller(cs[1..], i - 1);
    }
  }

  // ---------------------------------------------------------------------------------------
  // Signatures
  // ---------------------------------------------------------------------------------------

  function Path(prefix: string, name: string): string { (if prefix == "" then "" else prefix + ".") + name }

  datatype Visit = Visit(path: string, info: string)

  /** `named_modules`: the module itself, then every child, with its path. */
  function Visits(m: Module, path: string): seq<Visit>
    decreases Size(m), 0
  {
    [Visit(path, m.info)] + ChildVisits(m.children, path)
  }

  function ChildVisits(cs: seq<Child>, path: string): seq<Visit>
    decreases Sizes(cs), 1
  {
    if cs == [] then [] else Visits(cs[0].module_, Path(path, cs[0].name)) + ChildVisits(cs[1..], path)
  }

  function Lines(visits: seq<Visit>): seq<string> {
    seq(|visits|, i requires 0 <= i < |visits| => visits[i].path + ":" + visits[i].info)
  }

  lemma VisitsNotEmpty(m: Module, path: string)
    ensures Visits(m, path) != []
  {
  }

  function Signature(m: Module): string {
    VisitsNotEmpty(m, "");
    Join(Lines(Visits(m, "")), "\n")
  }

  /** The loop of `_get_child_signature` over `named_modules`. */
  method GetChildSignature(child: Module) returns (r: string)
    ensures r == Signature(child)
  {
    var visits := Visits(child, "");
    var lines: seq<string> := [];
    VisitsNotEmpty(child, "");
    for i := 0 to |visits|
      invariant lines == Lines(visits[..i])
    {
      lines := lines + [visits[i].path + ":" + visits[i].info];
    }
    assert visits[..|visits|] == visits;
    r := Join(lines, "\n");
  }

  // ---------------------------------------------------------------------------------------
  // A signature determines the tree
  // ---------------------------------------------------------------------------------------

  /** What PyTorch and the info strings guarantee: names are not empty, hold no dot, colon or line
      break, siblings have different names, and an info is one line. */
  ghost predicate Clean(m: Module)
    decreases m
  {
    && Free(m.info, '\n')
    && (forall i | 0 <= i < |m.children| :: CleanName(m.children[i].name) && Clean(m.children[i].module_))
    && (forall i, j | 0 <= i < j < |m.children| :: m.children[i].name != m.children[j].name)
  }

  predicate CleanName(n: string) { n != "" && Free(n, '.') && Free(n, ':') && Free(n, '\n') }

  ghost predicate CleanChildren(cs: seq<Child>) {
    && (forall i | 0 <= i < |cs| :: CleanName(cs[i].name) && Clean(cs[i].module_))
    && (forall i, j | 0 <= i < j < |cs| :: cs[i].name != cs[j].name)
  }

  /** s is the path q or lies below it. */
  predicate Under(s: string, q: string) { s == q || q + "." <= s }

  ghost predicate AllUnder(visits: seq<Visit>, q: string) {
    forall i | 0 <= i < |visits| :: Under(visits[i].path, q)
  }

  lemma UnderChild(s: string, q: string, name: string)
    requires q != "" && Under(s, Path(q, name))
    ensures Under(s, q)
  {
    var p := Path(q, name);
    assert p[..|q| + 1] == q + ".";
    if s != p {
      assert s[..|p|] == p;
      assert s[..|q| + 1] == p[..|q| + 1];
    }
  }

  /** Everything visited below a path lies below it. */
  lemma {:induction false} VisitsUnder(m: Module, q: string)
    requires q != ""
    ensures AllUnder(Visits(m, q), q)
    decreases Size(m), 0
  {
    ChildVisitsUnder(m.children, q);
  }

  lemma {:induction false} ChildVisitsUnder(cs: seq<Child>, q: string)
    requires q != ""
    ensures AllUnder(ChildVisits(cs, q), q)
    decreases Sizes(cs), 1
  {
    if cs != [] {
      var p := Path(q, cs[0].name);
      var first := Visits(cs[0].module_, p);
      VisitsUnder(cs[0].module_, p);
      forall i | 0 <= i < |first|
        ensures Under(first[i].path, q)
      {
        UnderChild(first[i].path, q, cs[0].name);
      }
      ChildVisitsUnder(cs[1..], q);
    }
  }

  /** A path lies below at most one child of q. */
  lemma UnderOneChild(s: string, q: string, a: string, b: string)
    requires CleanName(a) && CleanName(b) && Under(s, Path(q, a)) && Under(s, Path(q, b))
    ensures a == b
  {
    var base := if q == "" then "" else q + ".";
    var t := s[|base|..];
    assert Path(q, a) == base + a && Path(q, b) == base + b;
    assert t == a || a + "." <= t by { Below(s, base, a); }
    assert t == b || b + "." <= t by { Below(s, base, b); }
    AtStart(t, a);
    AtStart(t, b);
    if |a| < |b| {
      DotAfter(t, a, b);
    } else if |b| < |a| {
      DotAfter(t, b, a);
    }
  }

  lemma AtStart(t: string, a: string)
    requires t == a || a + "." <= t
    ensures a <= t && t[..|a|] == a
  {
    if t != a {
      assert t[..|a|] == (a + ".")[..|a|];
    }
  }

  lemma DotAfter(t: string, a: string, b: string)
    requires (t == a || a + "." <= t) && b <= t && |a| < |b|
    ensures !Free(b, '.')
  {
    assert t[|a|] == '.' && b[|a|] == t[|a|];
  }

  lemma Below(s: string, base: string, a: string)
    requires Under(s, base + a)
    ensures base <= s && (s[|base|..] == a || a + "." <= s[|base|..])
  {
    if s != base + a {
      assert s[..|base + a + "."|] == base + a + ".";
      assert s[..|base|] == (base + a + ".")[..|base|];
      assert s[|base|..|base + a + "."|] == a + ".";
      assert s[|base|..][..|a| + 1] == a + ".";
    } else {
      assert s[..|base|] == base;
    }
  }

  /** Of two lists that start with entries below q and go on with entries that are not, the parts below
      q are the same. */
  lemma SameHeads(a: seq<Visit>, rest: seq<Visit>, b: seq<Visit>, more: seq<Visit>, q: string)
    requires a + rest == b + more && AllUnder(a, q) && AllUnder(b, q)
    requires (rest != [] ==> !Under(rest[0].path, q)) && (more != [] ==> !Under(more[0].path, q))
    ensures a == b && rest == more
  {
    if |a| < |b| {
      NextIsUnder(a, rest, b, more, q);
    } else if |b| < |a| {
      NextIsUnder(b, more, a, rest, q);
    } else {
      var w := a + rest;
      assert w == b + more;
      assert w[..|a|] == a && w[..|a|] == b && w[|a|..] == rest && w[|a|..] == more;
    }
  }

  lemma NextIsUnder(a: seq<Visit>, rest: seq<Visit>, b: seq<Visit>, more: seq<Visit>, q: string)
    requires a + rest == b + more && |a| < |b| && AllUnder(b, q)
    ensures rest != [] && Under(rest[0].path, q)
  {
    var w := b + more;
    assert w == a + rest;
    assert w[|a|] == b[|a|] && w[|a|] == rest[0];
  }

  lemma FirstVisit(cs: seq<Child>, q: string)
    requires cs != []
    ensures ChildVisits(cs, q) != [] && ChildVisits(cs, q)[0].path == Path(q, cs[0].name)
  {
  }

  lemma SamePath(q: string, a: string, b: string)
    requires Path(q, a) == Path(q, b)
    ensures a == b
  {
    var base := if q == "" then "" else q + ".";
    assert (base + a)[|base|..] == a && (base + b)[|base|..] == b;
  }

  lemma SelfUnder(q: string) ensures Under(q, q) {}

  /** The visits of a clean list of children determine the children. */
  lemma {:induction false} VisitsDetermineChildren(cs: seq<Child>, ds: seq<Child>, q: string)
    requires CleanChildren(cs) && CleanChildren(ds) && ChildVisits(cs, q) == ChildVisits(ds, q)
    ensures cs == ds
    decreases Sizes(cs), 1
  {
    if cs != [] { FirstVisit(cs, q); }
    if ds != [] { FirstVisit(ds, q); }
    if cs != [] {
      SamePath(q, cs[0].name, ds[0].name);
      var p := Path(q, cs[0].name);
      VisitsUnder(cs[0].module_, p);
      VisitsUnder(ds[0].module_, p);
      OthersNotUnder(cs, q);
      OthersNotUnder(ds, q);
      SameHeads(Visits(cs[0].module_, p), ChildVisits(cs[1..], q),
                Visits(ds[0].module_, p), ChildVisits(ds[1..], q), p);
      VisitsDetermine(cs[0].module_, ds[0].module_, p);
      VisitsDetermineChildren(cs[1..], ds[1..], q);
      assert cs == [cs[0]] + cs[1..] && ds == [ds[0]] + ds[1..];
    }
  }

  lemma OthersNotUnder(cs: seq<Child>, q: string)
    requires cs != [] && CleanChildren(cs)
    ensures ChildVisits(cs[1..], q) != [] ==> !Under(ChildVisits(cs[1..], q)[0].path, Path(q, cs[0].name))
    ensures CleanChildren(cs[1..])
  {
    if |cs| > 1 {
      FirstVisit(cs[1..], q);
      SelfUnder(Path(q, cs[1].name));
      assert cs[0].name != cs[1].name;
      if Under(Path(q, cs[1].name), Path(q, cs[0].name)) {
        UnderOneChild(Path(q, cs[1].name), q, cs[0].name, cs[1].name);
      }
    }
  }

  lemma {:induction false} VisitsDetermine(a: Module, b: Module, q: string)
    requires Clean(a) && Clean(b) && Visits(a, q) == Visits(b, q)
    ensures a == b
    decreases Size(a), 0
  {
    assert Visits(a, q)[1..] == ChildVisits(a.children, q) && Visits(b, q)[1..] == ChildVisits(b.children, q);
    assert Visits(a, q)[0] == Visit(q, a.info) && Visits(b, q)[0] == Visit(q, b.info);
    VisitsDetermineChildren(a.children, b.children, q);
  }

  ghost predicate CleanVisits(visits: seq<Visit>) {
    forall i | 0 <= i < |visits| ::
      Free(visits[i].path, ':') && Free(visits[i].path, '\n') && Free(visits[i].info, '\n')
  }

  lemma {:induction false} VisitsAreClean(m: Module, q: string)
    requires Clean(m) && Free(q, ':') && Free(q, '\n')
    ensures CleanVisits(Visits(m, q))
    decreases Size(m), 0
  {
    ChildVisitsAreClean(m.children, q);
  }

  lemma {:induction false} ChildVisitsAreClean(cs: seq<Child>, q: string)
    requires CleanChildren(cs) && Free(q, ':') && Free(q, '\n')
    ensures CleanVisits(ChildVisits(cs, q))
    decreases Sizes(cs), 1
  {
    if cs != [] {
      VisitsAreClean(cs[0].module_, Path(q, cs[0].name));
      OthersNotUnder(cs, q);
      ChildVisitsAreClean(cs[1..], q);
    }
  }

  /** Equal signatures, equal trees. */
  lemma SignatureDetermines(a: Module, b: Module)
    requires Clean(a) && Clean(b) && Signature(a) == Signature(b)
    ensures a == b
  {
    var va, vb := Visits(a, ""), Visits(b, "");
    VisitsNotEmpty(a, "");
    VisitsNotEmpty(b, "");
    VisitsAreClean(a, "");
    VisitsAreClean(b, "");
    JoinInjective(Lines(va), Lines(vb), "\n");
    assert |va| == |Lines(va)| == |Lines(vb)| == |vb|;
    forall i | 0 <= i < |va|
      ensures va[i] == vb[i]
    {
      assert Lines(va)[i] == Lines(vb)[i];
      SplitLine(va[i], vb[i]);
    }
    VisitsDetermine(a, b, "");
  }

  lemma SplitLine(a: Visit, b: Visit)
    requires Free(a.path, ':') && Free(b.path, ':') && a.path + ":" + a.info == b.path + ":" + b.info
    ensures a == b
  {
    CutAt(a.path, a.info, b.path, b.info, ':');
  }

  // ---------------------------------------------------------------------------------------
  // Index ranges
  // ---------------------------------------------------------------------------------------

  function Insert(x: int, xs: seq<int>): seq<int> {
    if xs == [] || x <= xs[0] then [x] + xs else [xs[0]] + Insert(x, xs[1..])
  }

  /** `sorted`. */
  function Sort(xs: seq<int>): seq<int> { if xs == [] then [] else Insert(xs[0], Sort(xs[1..])) }

  predicate Ascending(xs: seq<int>) { forall i, j | 0 <= i < j < |xs| :: xs[i] < xs[j] }

  lemma {:induction false} InsertAscends(x: int, xs: seq<int>)
    requires Ascending(xs) && x !in xs
    ensures Ascending(Insert(x, xs)) && forall y :: y in Insert(x, xs) <==> y == x || y in xs
    decreases |xs|
  {
    if xs != [] && x > xs[0] {
      InsertAscends(x, xs[1..]);
      assert xs == [xs[0]] + xs[1..];
      var r := Insert(x, xs[1..]);
      forall i | 0 <= i < |r| ensures xs[0] < r[i] { assert r[i] in r; }
    } else if xs != [] {
      assert forall i | 0 <= i < |xs| :: x < xs[i];
    }
  }

  /** Sorting indices that differ gives them in ascending order, and no others. */
  lemma {:induction false} SortAscends(xs: seq<int>)
    requires Distinct(xs)
    ensures Ascending(Sort(xs)) && forall y :: y in Sort(xs) <==> y in xs
    decreases |xs|
  {
    if xs != [] {
      SortAscends(xs[1..]);
      InsertAscends(xs[0], Sort(xs[1..]));
      assert xs == [xs[0]] + xs[1..];
    }
  }

  lemma {:induction false} InsertKeeps(x: int, xs: seq<int>, y: int)
    ensures y in Insert(x, xs) <==> y == x || y in xs
    decreases |xs|
  {
    if xs != [] && x > xs[0] {
      InsertKeeps(x, xs[1..], y);
      assert xs == [xs[0]] + xs[1..];
    }
  }

  /** Sorting loses no index and adds none, also when indices repeat. */
  lemma {:induction false} SortKeeps(xs: seq<int>, y: int)
    ensures y in Sort(xs) <==> y in xs
    decreases |xs|
  {
    if xs != [] {
      SortKeeps(xs[1..], y);
      InsertKeeps(xs[0], Sort(xs[1..]), y);
      assert xs == [xs[0]] + xs[1..];
    }
  }

  datatype Range = Range(from: int, to: int)

  /** The runs of consecutive indices, when the run start..end is open and `rest` is to come. */
  function RunsFrom(start: int, end: int, rest: seq<int>): seq<Range>
    decreases |rest|
  {
    if rest == [] then [Range(start, end)]
    else if rest[0] == end + 1 then RunsFrom(start, rest[0], rest[1..])
    else [Range(start, end)] + RunsFrom(rest[0], rest[0], rest[1..])
  }

  function Runs(xs: seq<int>): seq<Range>
    requires xs != []
  {
    RunsFrom(xs[0], xs[0], xs[1..])
  }

  function RangeText(r: Range): string {
    if r.from == r.to then IntText(r.from) else IntText(r.from) + "-" + IntText(r.to)
  }

  function RangeTexts(rs: seq<Range>): seq<string> { seq(|rs|, i requires 0 <= i < |rs| => RangeText(rs[i])) }

  function RangesText(rs: seq<Range>): string
    requires rs != []
  {
    Join(RangeTexts(rs), ", ")
  }

  lemma {:induction false} RunsNotEmpty(start: int, end: int, rest: seq<int>)
    ensures RunsFrom(start, end, rest) != []
    decreases |rest|
  {
    if rest != [] && rest[0] == end + 1 {
      RunsNotEmpty(start, rest[0], rest[1..]);
    }
  }

  method FormatIndexRanges(indices: seq<int>) returns (text: string)
    requires indices != []
    ensures Sort(indices) != [] && Runs(Sort(indices)) != [] && text == RangesText(Runs(Sort(indices)))
  {
    var xs := Sort(indices);
    SortKeepsSize(indices);
    hide Sort, IntText, Join;
    var start, end := xs[0], xs[0];
    var texts: seq<string> := [];
    ghost var ranges: seq<Range> := [];
    for i := 1 to |xs|
      invariant texts == RangeTexts(ranges)
      invariant ranges + RunsFrom(start, end, xs[i..]) == Runs(xs)
    {
      var idx := xs[i];
      NextRun(ranges, start, end, xs, i);
      if idx == end + 1 {
        end := idx;
      } else {
        texts := texts + [if start == end then IntText(start) else IntText(start) + "-" + IntText(end)];
        ranges := ranges + [Range(start, end)];
        start, end := idx, idx;
      }
    }
    texts := texts + [if start == end then IntText(start) else IntText(start) + "-" + IntText(end)];
    ranges := ranges + [Range(start, end)];
    assert xs[|xs|..] == [] && ranges == Runs(xs) && texts == RangeTexts(ranges);
    text := Join(texts, ", ");
  }

  lemma NextRun(ranges: seq<Range>, start: int, end: int, xs: seq<int>, i: nat)
    requires i < |xs|
    ensures
      var more := if xs[i] == end + 1 then RunsFrom(start, xs[i], xs[i + 1..])
                  else [Range(start, end)] + RunsFrom(xs[i], xs[i], xs[i + 1..]);
      ranges + RunsFrom(start, end, xs[i..]) == ranges + more
    ensures xs[i] != end + 1 ==>
      ranges + RunsFrom(start, end, xs[i..]) == (ranges + [Range(start, end)]) + RunsFrom(xs[i], xs[i], xs[i + 1..])
  {
    assert xs[i..][0] == xs[i] && xs[i..][1..] == xs[i + 1..];
    if xs[i] != end + 1 {
      Associative(ranges, [Range(start, end)], RunsFrom(xs[i], xs[i], xs[i + 1..]));
    }
  }

  lemma {:induction false} SortKeepsSize(xs: seq<int>)
    ensures |Sort(xs)| == |xs|
    decreases |xs|
  {
    if xs != [] {
      SortKeepsSize(xs[1..]);
      InsertGrows(xs[0], Sort(xs[1..]));
    }
  }

  lemma {:induction false} InsertGrows(x: int, xs: seq<int>)
    ensures |Insert(x, xs)| == |xs| + 1
    decreases |xs|
  {
    if xs != [] {
      InsertGrows(x, xs[1..]);
    }
  }

  /** The indices a list of ranges covers. */
  function Expand(rs: seq<Range>): seq<int> {
    if rs == [] then [] else Span(rs[0].from, rs[0].to) + Expand(rs[1..])
  }

  function Span(from: int, to: int): seq<int> {
    if from > to then [] else seq(to + 1 - from, i requires 0 <= i < to + 1 - from => from + i)
  }

  lemma SpanNext(start: int, end: int)
    requires start <= end
    ensures Span(start, end + 1) == Span(start, end) + [end + 1]
  {
  }

  lemma ExpandCons(r: Range, rs: seq<Range>)
    ensures Expand([r] + rs) == Span(r.from, r.to) + Expand(rs)
  {
    assert ([r] + rs)[1..] == rs;
  }

  /** The next index extends the run at hand. */
  lemma RunGoesOn(start: int, end: int, rest: seq<int>)
    requires start <= end && rest != [] && rest[0] == end + 1
    ensures Span(start, rest[0]) + rest[1..] == Span(start, end) + rest
  {
    SpanNext(start, end);
    hide Span;
    assert Span(start, end) + [rest[0]] + rest[1..] == Span(start, end) + rest;
  }

  lemma OneIndex(x: int)
    ensures Span(x, x) == [x]
  {
  }

  /** Runs lose no index and add none: expanded again, they are the sorted indices. */
  lemma {:induction false} RunsExpand(start: int, end: int, rest: seq<int>)
    requires start <= end
    ensures Expand(RunsFrom(start, end, rest)) == Span(start, end) + rest
    decreases |rest|
  {
    hide Span, Expand;
    if rest == [] {
      ExpandCons(Range(start, end), []);
      assert [Range(start, end)] + [] == [Range(start, end)];
      NothingExpanded();
    } else if rest[0] == end + 1 {
      RunsExpand(start, rest[0], rest[1..]);
      RunGoesOn(start, end, rest);
    } else {
      RunsExpand(rest[0], rest[0], rest[1..]);
      OneIndex(rest[0]);
      ExpandCons(Range(start, end), RunsFrom(rest[0], rest[0], rest[1..]));
      assert [rest[0]] + rest[1..] == rest;
    }
  }

  lemma NothingExpanded()
    ensures Expand([]) == []
  {
  }

  /** Each range goes up, and between two of them some index is missing: no two could be one. */
  ghost predicate Maximal(rs: seq<Range>) {
    && (forall i | 0 <= i < |rs| :: rs[i].from <= rs[i].to)
    && (forall i | 0 < i < |rs| :: rs[i - 1].to + 1 < rs[i].from)
  }

  lemma {:induction false} RunsFromMaximal(start: int, end: int, rest: seq<int>)
    requires start <= end && Ascending([end] + rest)
    ensures Maximal(RunsFrom(start, end, rest))
    ensures RunsFrom(start, end, rest) != [] && RunsFrom(start, end, rest)[0].from == start
    decreases |rest|
  {
    if rest != [] {
      assert ([end] + rest)[0] == end && ([end] + rest)[1] == rest[0];
      assert Ascending([rest[0]] + rest[1..]) by { assert [rest[0]] + rest[1..] == ([end] + rest)[1..]; }
      if rest[0] == end + 1 {
        RunsFromMaximal(start, rest[0], rest[1..]);
      } else {
        RunsFromMaximal(rest[0], rest[0], rest[1..]);
        var more := RunsFrom(rest[0], rest[0], rest[1..]);
        var rs := [Range(start, end)] + more;
        assert forall i | 0 < i < |rs| :: rs[i] == more[i - 1];
      }
    }
  }

  /** The ranges of different indices in order are maximal runs. */
  lemma RunsAreMaximal(xs: seq<int>)
    requires xs != [] && Ascending(xs)
    ensures Maximal(Runs(xs))
  {
    assert [xs[0]] + xs[1..] == xs;
    RunsFromMaximal(xs[0], xs[0], xs[1..]);
  }

  lemma RunsOfSorted(xs: seq<int>)
    requires xs != []
    ensures Runs(xs) != [] && Expand(Runs(xs)) == xs
  {
    RunsExpand(xs[0], xs[0], xs[1..]);
    RunsNotEmpty(xs[0], xs[0], xs[1..]);
    assert Span(xs[0], xs[0]) + xs[1..] == xs;
  }

  lemma RangeTextInjective(a: Range, b: Range)
    requires RangeText(a) == RangeText(b)
    ensures a == b
  {
    RangeTextShape(a);
    RangeTextShape(b);
    hide RangeText;
    if a.from == a.to {
      RangeParts(a);
      RangeParts(b);
      IntTextInjective(a.from, b.from);
    } else {
      RangeHalves(a);
      RangeHalves(b);
      IntTextTail(a.from);
      IntTextTail(b.from);
      hide IntText, RangeText;
      CutAt(IntText(a.from)[1..], IntText(a.to), IntText(b.from)[1..], IntText(b.to), '-');
      assert IntText(a.from) == [RangeText(a)[0]] + IntText(a.from)[1..];
      assert IntText(b.from) == [RangeText(b)[0]] + IntText(b.from)[1..];
      IntTextInjective(a.from, b.from);
      IntTextInjective(a.to, b.to);
    }
  }

  lemma RangeParts(a: Range)
    ensures RangeText(a) == if a.from == a.to then IntText(a.from) else IntText(a.from) + "-" + IntText(a.to)
  {
    hide IntText;
  }

  lemma RangeHalves(a: Range)
    requires a.from != a.to
    ensures RangeText(a) != "" && RangeText(a)[0] == IntText(a.from)[0]
    ensures RangeText(a)[1..] == IntText(a.from)[1..] + ['-'] + IntText(a.to)
  {
    hide IntText;
  }

  /** Behind the first character there is a dash exactly in a range of several indices. */
  lemma RangeTextShape(a: Range)
    ensures RangeText(a) != "" && (a.from == a.to <==> Free(RangeText(a)[1..], '-'))
    ensures Free(RangeText(a), ',')
  {
    IntTextTail(a.from);
    IntTextFree(a.from, ',');
    IntTextFree(a.to, ',');
    hide IntText;
    if a.from != a.to {
      assert RangeText(a)[1..][|IntText(a.from)| - 1] == '-';
    }
  }

  /** The printed ranges determine the indices. */
  lemma RangesTextInjective(a: seq<Range>, b: seq<Range>)
    requires a != [] && b != [] && RangesText(a) == RangesText(b)
    ensures a == b
  {
    var ta, tb := RangeTexts(a), RangeTexts(b);
    forall i | 0 <= i < |ta| ensures Free(ta[i], ',') { RangeTextShape(a[i]); }
    forall i | 0 <= i < |tb| ensures Free(tb[i], ',') { RangeTextShape(b[i]); }
    JoinInjective(ta, tb, ", ");
    forall i | 0 <= i < |a| ensures a[i] == b[i] {
      assert ta[i] == tb[i];
      RangeTextInjective(a[i], b[i]);
    }
  }
}
