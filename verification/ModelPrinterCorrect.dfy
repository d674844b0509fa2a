/** A printed module tree loses nothing: every numbered child can be read off its group, and models printed
    alike are alike (overlay/vllm/model_inspection.py). */
module ModelPrinterCorrect {
  import opened Integers
  import opened Wrappers
  import opened Text
  import opened ModelInspection
  import opened ModelText
  import opened ModelPrinter

  /** The text of `format_model_inspection`. */
  function Printout(m: Module): string {
    Join(Render(Collapse(m), 0, Head("", 1)), "\n")
  }

  method FormatModelInspection(model: Module) returns (text: string)
    ensures text == Printout(model)
  {
    var lines := FormatModuleTree(model, "", 0);
    text := Join(lines, "\n");
  }

  /** Infos start like the class names they are. */
  ghost predicate Printable(m: Module)
    decreases m
  {
    && m.info != "" && IsLetter(m.info[0])
    && forall i | 0 <= i < |m.children| :: Printable(m.children[i].module_)
  }

  ghost predicate Proper(m: Module) { Clean(m) && Printable(m) }

  /** The same model, up to the order in which numbered children were registered and the spelling of their numbers:
      every child of each has a partner among the children of the other, and the named ones come in one order. */
  ghost predicate Same(a: Module, b: Module)
    decreases a
  {
    && a.info == b.info
    && (forall i | 0 <= i < |a.children| :: HasPartner(a.children[i], b.children))
    && (forall j | 0 <= j < |b.children| :: IsPartner(a.children, b.children[j]))
    && InOneOrder(a.children, b.children)
  }

  /** Two children with the same number, or with the same name that is none, and the same module. */
  ghost predicate Partners(c: Child, d: Child)
    decreases c, 0
  {
    && (if ReadInt(c.name).Some? then ReadInt(d.name) == ReadInt(c.name) else d.name == c.name)
    && Same(c.module_, d.module_)
  }

  ghost predicate HasPartner(c: Child, ds: seq<Child>)
    decreases c, 1
  {
    exists j :: 0 <= j < |ds| && Partners(c, ds[j])
  }

  ghost predicate IsPartner(cs: seq<Child>, d: Child)
    decreases cs, 1
  {
    exists i :: 0 <= i < |cs| && Partners(cs[i], d)
  }

  /** Children without a number come in the same order. */
  ghost predicate InOneOrder(cs: seq<Child>, ds: seq<Child>) {
    forall i, k, j, l | 0 <= i < k < |cs| && 0 <= j < |ds| && 0 <= l < |ds|
                        && ReadInt(cs[i].name).None? && ReadInt(cs[k].name).None?
                        && cs[i].name == ds[j].name && cs[k].name == ds[l].name ::
      j < l
  }

  /** The same, list by list: the numbered children of each are found, by number, among those of the other, and the
      named ones match in order. */
  ghost predicate Matches(a: Module, b: Module)
    decreases Size(a), 0
  {
    ListedAreSmaller(a);
    && a.info == b.info
    && NamesMatch(Named(a.children), Named(b.children), Size(a) - 1)
    && NumbersMatch(Numbered(a.children), Numbered(b.children), Size(a) - 1)
  }

  ghost predicate NamesMatch(cs: seq<Child>, ds: seq<Child>, bound: nat)
    requires forall i | 0 <= i < |cs| :: Size(cs[i].module_) <= bound
    decreases bound, 2
  {
    && |cs| == |ds|
    && forall i | 0 <= i < |cs| :: cs[i].name == ds[i].name && Matches(cs[i].module_, ds[i].module_)
  }

  ghost predicate NumbersMatch(xs: seq<Member>, ys: seq<Member>, bound: nat)
    requires forall i | 0 <= i < |xs| :: Size(xs[i].module_) <= bound
    decreases bound, 2
  {
    && (forall i | 0 <= i < |xs| :: HasCopy(xs[i], ys))
    && (forall j | 0 <= j < |ys| :: IsCopy(xs, ys[j], bound))
  }

  ghost predicate HasCopy(x: Member, ys: seq<Member>)
    decreases Size(x.module_), 1
  {
    exists j :: 0 <= j < |ys| && x.idx == ys[j].idx && Matches(x.module_, ys[j].module_)
  }

  ghost predicate IsCopy(xs: seq<Member>, y: Member, bound: nat)
    requires forall i | 0 <= i < |xs| :: Size(xs[i].module_) <= bound
    decreases bound, 1
  {
    exists i :: 0 <= i < |xs| && xs[i].idx == y.idx && Matches(xs[i].module_, y.module_)
  }

  lemma ListedAreSmaller(m: Module)
    ensures forall i | 0 <= i < |Numbered(m.children)| :: Size(Numbered(m.children)[i].module_) < Size(m)
    ensures forall i | 0 <= i < |Named(m.children)| :: Size(Named(m.children)[i].module_) < Size(m)
  {
    PartsAreSmaller(m);
    var xs, cs := Numbered(m.children), Named(m.children);
    forall i | 0 <= i < |xs| ensures Size(xs[i].module_) < Size(m) {
      NumberedAreChildren(m.children, xs[i]);
      var j :| 0 <= j < |m.children| && m.children[j].module_ == xs[i].module_;
      ChildIsSmaller(m.children, j);
    }
    forall i | 0 <= i < |cs| ensures Size(cs[i].module_) < Size(m) {
      assert cs[i] in cs;
    }
  }

  // ---------------------------------------------------------------------------------------
  // Groups
  // ---------------------------------------------------------------------------------------

  lemma NumberedProper(m: Module, x: Member)
    requires Proper(m) && x in Numbered(m.children)
    ensures Proper(x.module_)
  {
    NumberedAreChildren(m.children, x);
  }

  lemma NamedProper(m: Module, c: Child)
    requires Proper(m) && c in Named(m.children)
    ensures Proper(c.module_) && CleanName(c.name) && ReadInt(c.name).None?
  {
    NamedAreChildren(m.children, c);
  }

  /** All modules of a group are equal. */
  lemma GroupIsUniform(m: Module, g: Group, x: Member)
    requires Proper(m) && g in GroupsOf(m) && x in g.members
    ensures x in Numbered(m.children) && Proper(x.module_)
    ensures g.members != [] && x.module_ == g.members[0].module_
  {
    GroupsOfAreGroups(m);
    var y := g.members[0];
    assert y in g.members;
    NumberedProper(m, x);
    NumberedProper(m, y);
    SignatureDetermines(x.module_, y.module_);
  }

  function RangesOf(g: Group): (rs: seq<Range>)
    requires g.members != []
    ensures rs != []
  {
    SortKeepsSize(Indices(g.members));
    RunsOfSorted(Sort(Indices(g.members)));
    Runs(Sort(Indices(g.members)))
  }

  lemma RangesCover(m: Module, g: Group, idx: int)
    requires Proper(m) && g in GroupsOf(m)
    ensures g.members != [] && IndexText(g) == RangesText(RangesOf(g))
    ensures idx in Expand(RangesOf(g)) <==> idx in Indices(g.members)
    ensures |Expand(RangesOf(g))| == |g.members|
  {
    GroupsOfAreGroups(m);
    var indices := Indices(g.members);
    SortKeepsSize(indices);
    SortKeeps(indices, idx);
    RunsOfSorted(Sort(indices));
  }

  /** Expanding the printed ranges of the groups gives back every numbered child: each is in a group whose
      ranges cover its number and whose printed module is its own, and the ranges cover no other number. */
  lemma ExpandedGroupsAreTheChildren(m: Module, idx: int, child: Module)
    requires Proper(m)
    ensures Member(idx, child) in Numbered(m.children) <==>
            exists g :: g in GroupsOf(m) && g.members != [] && idx in Expand(RangesOf(g))
                        && g.members[0].module_ == child
  {
    var x := Member(idx, child);
    if x in Numbered(m.children) {
      var g := GroupHolds(m, x);
    }
    if exists g :: g in GroupsOf(m) && g.members != [] && idx in Expand(RangesOf(g)) && g.members[0].module_ == child {
      var g :| g in GroupsOf(m) && g.members != [] && idx in Expand(RangesOf(g)) && g.members[0].module_ == child;
      HeldIsChild(m, g, idx);
    }
  }

  lemma GroupHolds(m: Module, x: Member) returns (g: Group)
    requires Proper(m) && x in Numbered(m.children)
    ensures g in GroupsOf(m) && g.members != [] && x.idx in Expand(RangesOf(g)) && g.members[0].module_ == x.module_
  {
    hide Proper, Numbered, GroupsOf, Expand, RangesOf;
    GroupsOfAreGroups(m);
    g :| g in GroupsOf(m) && x in g.members;
    GroupIsUniform(m, g, x);
    RangesCover(m, g, x.idx);
    var i :| 0 <= i < |g.members| && g.members[i] == x;
    assert Indices(g.members)[i] == x.idx;
  }

  lemma HeldIsChild(m: Module, g: Group, idx: int)
    requires Proper(m) && g in GroupsOf(m) && g.members != [] && idx in Expand(RangesOf(g))
    ensures Member(idx, g.members[0].module_) in Numbered(m.children)
  {
    hide Proper, Numbered, GroupsOf, Expand, RangesOf;
    RangesCover(m, g, idx);
    var i :| 0 <= i < |g.members| && Indices(g.members)[i] == idx;
    assert g.members[i] in g.members;
    GroupIsUniform(m, g, g.members[i]);
  }

  // ---------------------------------------------------------------------------------------
  // Collapsed trees determine modules
  // ---------------------------------------------------------------------------------------

  lemma GroupBlocks(m: Module, i: nat)
    requires i < |GroupsOf(m)|
    ensures GroupsOf(m)[i].members != [] && i < |Collapse(m).blocks|
    ensures Collapse(m).blocks[i] == Shown(GroupEntry(GroupsOf(m)[i]))
  {
    GroupsOfAreGroups(m);
    CollapseIsShown(m);
    assert GroupsOf(m)[i] in GroupsOf(m);
  }

  lemma NamedEntry(m: Module, i: nat)
    requires i < |Named(m.children)|
    ensures |GroupsOf(m)| + i < |Entries(m)|
    ensures Entries(m)[|GroupsOf(m)| + i] == Entry(Named(m.children)[i].name, 1, Named(m.children)[i].module_)
  {
    hide GroupsOf, Named, GroupEntry;
  }

  lemma NamedBlocks(m: Module, i: nat)
    requires i < |Named(m.children)|
    ensures |GroupsOf(m)| + i < |Collapse(m).blocks|
    ensures
      var c := Named(m.children)[i];
      Collapse(m).blocks[|GroupsOf(m)| + i] == Block(c.name, 1, Collapse(c.module_))
  {
    NamedEntry(m, i);
    CollapseIsShown(m);
    hide Collapse, GroupsOf, Named, Entries;
  }

  lemma BlockCount(m: Module)
    ensures |Collapse(m).blocks| == |GroupsOf(m)| + |Named(m.children)|
  {
    CollapseIsShown(m);
  }

  /** A group is never printed like a named child. */
  lemma GroupIsNotNamed(a: Module, i: nat, b: Module, j: nat)
    requires Proper(b) && i < |GroupsOf(a)| && j < |Named(b.children)| && Collapse(a).blocks == Collapse(b).blocks
    ensures i != |GroupsOf(b)| + j
  {
    hide Collapse, GroupsOf, Named, Proper, IndexText, ReadInt, IntText;
    GroupBlocks(a, i);
    NamedBlocks(b, j);
    if i == |GroupsOf(b)| + j {
      var g, c := GroupsOf(a)[i], Named(b.children)[j];
      assert c in Named(b.children);
      NamedProper(b, c);
      IndexTextOfOne(g);
      ReadsBack(g.members[0].idx);
    }
  }

  lemma SameGroupCount(a: Module, b: Module)
    requires Proper(a) && Proper(b) && Collapse(a).blocks == Collapse(b).blocks
    ensures |GroupsOf(a)| == |GroupsOf(b)| && |Named(a.children)| == |Named(b.children)|
  {
    BlockCount(a);
    BlockCount(b);
    if |GroupsOf(a)| < |GroupsOf(b)| {
      GroupIsNotNamed(b, |GroupsOf(a)|, a, 0);
    } else if |GroupsOf(b)| < |GroupsOf(a)| {
      GroupIsNotNamed(a, |GroupsOf(b)|, b, 0);
    }
  }

  lemma PrintableStripped(m: Module)
    requires Printable(m)
    ensures m.(info := Strip(m.info)) == m
  {
  }

  lemma RepresentativeShown(m: Module, i: nat)
    requires Proper(m) && i < |GroupsOf(m)|
    ensures
      var g := GroupsOf(m)[i];
      && g.members != [] && Proper(g.members[0].module_) && Size(g.members[0].module_) < Size(m)
      && i < |Collapse(m).blocks|
      && Collapse(m).blocks[i] == Block(IndexText(g), |g.members|, Collapse(g.members[0].module_))
  {
    var g := GroupsOf(m)[i];
    GroupBlocks(m, i);
    assert g in GroupsOf(m) && g.members[0] in g.members;
    GroupIsUniform(m, g, g.members[0]);
    PrintableStripped(g.members[0].module_);
    PartsAreSmaller(m);
  }

  /** Groups printed alike hold the same numbers. */
  lemma SameNumbers(a: Module, b: Module, i: nat, idx: int)
    requires Proper(a) && Proper(b) && i < |GroupsOf(a)| && i < |GroupsOf(b)|
    requires Collapse(a).blocks == Collapse(b).blocks
    ensures idx in Indices(GroupsOf(a)[i].members) <==> idx in Indices(GroupsOf(b)[i].members)
  {
    var g, h := GroupsOf(a)[i], GroupsOf(b)[i];
    RepresentativeShown(a, i);
    RepresentativeShown(b, i);
    assert g in GroupsOf(a) && h in GroupsOf(b);
    RangesCover(a, g, idx);
    RangesCover(b, h, idx);
    RangesTextInjective(RangesOf(g), RangesOf(h));
  }

  /** The groups of one module are those of the other, with the same numbers and the same modules. */
  ghost predicate GroupsAgree(a: Module, b: Module) {
    var gs, hs := GroupsOf(a), GroupsOf(b);
    && |gs| == |hs|
    && forall i | 0 <= i < |gs| ::
         && gs[i].members != [] && hs[i].members != []
         && Matches(gs[i].members[0].module_, hs[i].members[0].module_)
         && forall idx: int :: idx in Indices(gs[i].members) <==> idx in Indices(hs[i].members)
  }

  /** A numbered child of one module is found in the other. */
  lemma FoundIn(a: Module, b: Module, i: nat) returns (j: nat)
    requires Proper(a) && Proper(b) && GroupsAgree(a, b) && i < |Numbered(a.children)|
    ensures j < |Numbered(b.children)|
    ensures Numbered(a.children)[i].idx == Numbered(b.children)[j].idx
    ensures Matches(Numbered(a.children)[i].module_, Numbered(b.children)[j].module_)
  {
    hide Matches;
    var x := Numbered(a.children)[i];
    var k, p := InGroup(a, x);
    var g, h := GroupsOf(a)[k], GroupsOf(b)[k];
    assert Indices(g.members)[p] == x.idx;
    assert x.idx in Indices(h.members);
    var q :| 0 <= q < |h.members| && Indices(h.members)[q] == x.idx;
    var y := h.members[q];
    assert h in GroupsOf(b) && y in h.members && g in GroupsOf(a) && x in g.members;
    GroupIsUniform(b, h, y);
    GroupIsUniform(a, g, x);
    j :| 0 <= j < |Numbered(b.children)| && Numbered(b.children)[j] == y;
  }

  lemma FoundBack(a: Module, b: Module, j: nat) returns (i: nat)
    requires Proper(a) && Proper(b) && GroupsAgree(a, b) && j < |Numbered(b.children)|
    ensures i < |Numbered(a.children)|
    ensures Numbered(a.children)[i].idx == Numbered(b.children)[j].idx
    ensures Matches(Numbered(a.children)[i].module_, Numbered(b.children)[j].module_)
  {
    hide Matches;
    var y := Numbered(b.children)[j];
    var k, q := InGroup(b, y);
    var g, h := GroupsOf(a)[k], GroupsOf(b)[k];
    assert Indices(h.members)[q] == y.idx;
    assert y.idx in Indices(g.members);
    var p :| 0 <= p < |g.members| && Indices(g.members)[p] == y.idx;
    var x := g.members[p];
    assert h in GroupsOf(b) && y in h.members && g in GroupsOf(a) && x in g.members;
    GroupIsUniform(b, h, y);
    GroupIsUniform(a, g, x);
    i :| 0 <= i < |Numbered(a.children)| && Numbered(a.children)[i] == x;
  }

  lemma InGroup(m: Module, x: Member) returns (k: nat, p: nat)
    requires x in Numbered(m.children)
    ensures k < |GroupsOf(m)| && p < |GroupsOf(m)[k].members| && GroupsOf(m)[k].members[p] == x
  {
    GroupsOfAreGroups(m);
    var g :| g in GroupsOf(m) && x in g.members;
    k :| 0 <= k < |GroupsOf(m)| && GroupsOf(m)[k] == g;
    p :| 0 <= p < |g.members| && g.members[p] == x;
  }

  lemma AllCopied(a: Module, b: Module)
    requires Proper(a) && Proper(b) && GroupsAgree(a, b)
    requires Size(a) > 0
    requires forall i | 0 <= i < |Numbered(a.children)| :: Size(Numbered(a.children)[i].module_) <= Size(a) - 1
    ensures NumbersMatch(Numbered(a.children), Numbered(b.children), Size(a) - 1)
  {
    hide Matches, Proper, GroupsAgree, Numbered, Size, HasCopy, IsCopy;
    forall i | 0 <= i < |Numbered(a.children)|
      ensures HasCopy(Numbered(a.children)[i], Numbered(b.children))
    {
      CopyFound(a, b, i);
    }
    forall j | 0 <= j < |Numbered(b.children)|
      ensures IsCopy(Numbered(a.children), Numbered(b.children)[j], Size(a) - 1)
    {
      CopyFoundBack(a, b, j);
    }
  }

  lemma CopyFound(a: Module, b: Module, i: nat)
    requires Proper(a) && Proper(b) && GroupsAgree(a, b) && i < |Numbered(a.children)|
    ensures HasCopy(Numbered(a.children)[i], Numbered(b.children))
  {
    hide Matches, Proper, GroupsAgree, Numbered;
    var j := FoundIn(a, b, i);
  }

  lemma CopyFoundBack(a: Module, b: Module, j: nat)
    requires Proper(a) && Proper(b) && GroupsAgree(a, b) && j < |Numbered(b.children)|
    requires forall i | 0 <= i < |Numbered(a.children)| :: Size(Numbered(a.children)[i].module_) <= Size(a) - 1
    ensures IsCopy(Numbered(a.children), Numbered(b.children)[j], Size(a) - 1)
  {
    hide Matches, Proper, GroupsAgree, Numbered;
    var i := FoundBack(a, b, j);
  }

  /** Modules that collapse to the same tree match. */
  lemma {:induction false} CollapseMatches(a: Module, b: Module)
    requires Proper(a) && Proper(b) && Collapse(a) == Collapse(b)
    ensures Matches(a, b)
    decreases Size(a)
  {
    hide Matches, Collapse, GroupsOf, Numbered, Named, Proper, Size;
    SameGroupCount(a, b);
    var gs, hs, cs, ds := GroupsOf(a), GroupsOf(b), Named(a.children), Named(b.children);
    forall i | 0 <= i < |gs|
      ensures gs[i].members != [] && hs[i].members != []
      ensures Matches(gs[i].members[0].module_, hs[i].members[0].module_)
      ensures forall idx: int :: idx in Indices(gs[i].members) <==> idx in Indices(hs[i].members)
    {
      RepresentativeShown(a, i);
      RepresentativeShown(b, i);
      CollapseMatches(gs[i].members[0].module_, hs[i].members[0].module_);
      forall idx: int { SameNumbers(a, b, i, idx); }
    }
    ListedAreSmaller(a);
    assert Size(a) > 0 by { SizePositive(a); }
    forall i | 0 <= i < |cs|
      ensures cs[i].name == ds[i].name && Matches(cs[i].module_, ds[i].module_)
    {
      NamedBlocks(a, i);
      NamedBlocks(b, i);
      assert cs[i] in cs && ds[i] in ds;
      NamedProper(a, cs[i]);
      NamedProper(b, ds[i]);
      CollapseMatches(cs[i].module_, ds[i].module_);
    }
    CollapseInfo(a);
    CollapseInfo(b);
    assert NamesMatch(cs, ds, Size(a) - 1);
    assert GroupsAgree(a, b);
    hide *;
    AllCopied(a, b);
    PartsMatch(a, b);
  }

  lemma SizePositive(m: Module)
    ensures Size(m) > 0
  {
  }

  lemma PartsMatch(a: Module, b: Module)
    requires a.info == b.info && Size(a) > 0
    requires forall i | 0 <= i < |Named(a.children)| :: Size(Named(a.children)[i].module_) <= Size(a) - 1
    requires forall i | 0 <= i < |Numbered(a.children)| :: Size(Numbered(a.children)[i].module_) <= Size(a) - 1
    requires NamesMatch(Named(a.children), Named(b.children), Size(a) - 1)
    requires NumbersMatch(Numbered(a.children), Numbered(b.children), Size(a) - 1)
    ensures Matches(a, b)
  {
    hide Size, Named, Numbered, NamesMatch, NumbersMatch;
  }

  lemma CollapseInfo(m: Module)
    ensures Collapse(m).info == m.info
  {
  }

  // ---------------------------------------------------------------------------------------
  // The text determines the model
  // ---------------------------------------------------------------------------------------

  lemma {:induction false} JoinFree(lines: seq<string>, sep: string, c: char)
    requires lines != [] && Free(sep, c) && forall i | 0 <= i < |lines| :: Free(lines[i], c)
    ensures Free(Join(lines, sep), c)
    decreases |lines|
  {
    if |lines| > 1 { JoinFree(lines[1..], sep, c); }
  }

  lemma IndexTextFree(g: Group, c: char)
    requires g.members != [] && !IsDigit(c) && c != '-' && c != ',' && c != ' '
    ensures Free(IndexText(g), c)
  {
    var rs := RangesOf(g);
    var texts := RangeTexts(rs);
    forall i | 0 <= i < |texts| ensures Free(texts[i], c) {
      IntTextFree(rs[i].from, c);
      IntTextFree(rs[i].to, c);
    }
    JoinFree(texts, ", ", c);
  }

  lemma {:induction false} CollapseIsLegible(m: Module)
    requires Proper(m)
    ensures Legible(Collapse(m))
    decreases Size(m)
  {
    hide Size, Collapse, GroupsOf, Named, Proper;
    var v, gs, cs := Collapse(m), GroupsOf(m), Named(m.children);
    BlockCount(m);
    CollapseInfo(m);
    ProperInfo(m);
    ListedAreSmaller(m);
    forall i | 0 <= i < |v.blocks|
      ensures LegibleBlock(v.blocks[i])
    {
      if i < |gs| {
        RepresentativeShown(m, i);
        CollapseIsLegible(gs[i].members[0].module_);
        GroupLegible(gs[i], Collapse(gs[i].members[0].module_));
      } else {
        var c := cs[i - |gs|];
        NamedBlocks(m, i - |gs|);
        assert c in cs;
        NamedProper(m, c);
        CollapseIsLegible(c.module_);
      }
    }
  }

  lemma ProperInfo(m: Module)
    requires Proper(m)
    ensures m.info != "" && IsLetter(m.info[0]) && Free(m.info, '\n')
  {
  }

  lemma GroupLegible(g: Group, v: View)
    requires g.members != [] && Legible(v)
    ensures LegibleBlock(Block(IndexText(g), |g.members|, v))
  {
    hide IndexText;
    IndexTextFree(g, ':');
    IndexTextFree(g, '\n');
    IndexTextOfOne(g);
  }

  lemma PrintoutIsCollapse(a: Module, b: Module)
    requires Proper(a) && Proper(b) && Printout(a) == Printout(b)
    ensures Collapse(a) == Collapse(b)
  {
    hide Collapse, Render, Proper;
    CollapseIsLegible(a);
    CollapseIsLegible(b);
    OneLine(Collapse(a), 0, Head("", 1));
    OneLine(Collapse(b), 0, Head("", 1));
    RenderOneLiners(Collapse(a), 0, Head("", 1));
    RenderOneLiners(Collapse(b), 0, Head("", 1));
    JoinInjective(Render(Collapse(a), 0, Head("", 1)), Render(Collapse(b), 0, Head("", 1)), "\n");
    LinesDetermine(Collapse(a), Collapse(b), 0, Head("", 1));
  }

  // ---------------------------------------------------------------------------------------
  // Child by child
  // ---------------------------------------------------------------------------------------

  lemma NumberedListed(cs: seq<Child>, i: nat) returns (k: nat)
    requires i < |cs| && ReadInt(cs[i].name).Some?
    ensures k < |Numbered(cs)| && Numbered(cs)[k] == Member(ReadInt(cs[i].name).value, cs[i].module_)
  {
    var at := NumberedInOrder(cs);
    assert i in at;
    k :| 0 <= k < |at| && at[k] == i;
  }

  lemma NamedListed(cs: seq<Child>, i: nat) returns (k: nat)
    requires i < |cs| && ReadInt(cs[i].name).None?
    ensures k < |Named(cs)| && Named(cs)[k] == cs[i]
  {
    var at := NamedInOrder(cs);
    assert i in at;
    k :| 0 <= k < |at| && at[k] == i;
  }

  lemma PartnerOf(a: Module, b: Module, i: nat) returns (j: nat)
    requires Matches(a, b) && i < |a.children|
    ensures j < |b.children| && Matches(a.children[i].module_, b.children[j].module_)
    ensures NamesAgree(a.children[i], b.children[j])
  {
    hide ReadInt, Named, Numbered, Size;
    if ReadInt(a.children[i].name).Some? {
      var k := NumberedListed(a.children, i);
      assert HasCopy(Numbered(a.children)[k], Numbered(b.children));
      var y :| y in Numbered(b.children) && y.idx == Numbered(a.children)[k].idx
               && Matches(Numbered(a.children)[k].module_, y.module_);
      NumberedAreChildren(b.children, y);
      j :| 0 <= j < |b.children| && ReadInt(b.children[j].name) == Some(y.idx) && b.children[j].module_ == y.module_;
    } else {
      var k := NamedListed(a.children, i);
      var d := Named(b.children)[k];
      assert d in Named(b.children);
      NamedAreChildren(b.children, d);
      j :| 0 <= j < |b.children| && b.children[j] == d;
    }
  }

  lemma PartnerFor(a: Module, b: Module, j: nat) returns (i: nat)
    requires Matches(a, b) && j < |b.children|
    ensures i < |a.children| && Matches(a.children[i].module_, b.children[j].module_)
    ensures NamesAgree(a.children[i], b.children[j])
  {
    hide ReadInt, Named, Numbered, Size;
    ListedAreSmaller(a);
    if ReadInt(b.children[j].name).Some? {
      var k := NumberedListed(b.children, j);
      SizePositive(a);
      assert IsCopy(Numbered(a.children), Numbered(b.children)[k], Size(a) - 1);
      var x :| x in Numbered(a.children) && x.idx == Numbered(b.children)[k].idx
               && Matches(x.module_, Numbered(b.children)[k].module_);
      NumberedAreChildren(a.children, x);
      i :| 0 <= i < |a.children| && ReadInt(a.children[i].name) == Some(x.idx) && a.children[i].module_ == x.module_;
    } else {
      var k := NamedListed(b.children, j);
      var c := Named(a.children)[k];
      assert c in Named(a.children);
      NamedAreChildren(a.children, c);
      i :| 0 <= i < |a.children| && a.children[i] == c;
    }
  }

  lemma SameOrder(a: Module, b: Module)
    requires Matches(a, b) && Clean(b)
    ensures InOneOrder(a.children, b.children)
  {
    var cs, ds := a.children, b.children;
    var at := NamedInOrder(cs);
    var bt := NamedInOrder(ds);
    assert forall i, j | 0 <= i < j < |ds| :: ds[i].name != ds[j].name;
    assert |at| == |bt| && forall p | 0 <= p < |at| :: cs[at[p]].name == ds[bt[p]].name by { NamesPair(a, b, at, bt); }
    hide Matches, ReadInt, Named, Clean, InOneOrder;
    forall i: nat, k: nat, j: nat, l: nat | i < k < |cs| && j < |ds| && l < |ds|
                        && ReadInt(cs[i].name).None? && ReadInt(cs[k].name).None?
                        && cs[i].name == ds[j].name && cs[k].name == ds[l].name
      ensures j < l
    {
      NamesInOrder(cs, ds, at, bt, i, k, j, l);
    }
    IsInOneOrder(cs, ds);
  }

  lemma IsInOneOrder(cs: seq<Child>, ds: seq<Child>)
    requires forall i: nat, k: nat, j: nat, l: nat | i < k < |cs| && j < |ds| && l < |ds|
                        && ReadInt(cs[i].name).None? && ReadInt(cs[k].name).None?
                        && cs[i].name == ds[j].name && cs[k].name == ds[l].name :: j < l
    ensures InOneOrder(cs, ds)
  {
    hide ReadInt;
  }

  lemma NamesPair(a: Module, b: Module, at: seq<nat>, bt: seq<nat>)
    requires Matches(a, b) && Picks(a.children, at, false) && Picks(b.children, bt, false)
    requires |Named(a.children)| == |at| && |Named(b.children)| == |bt|
    requires forall k | 0 <= k < |at| :: Named(a.children)[k] == a.children[at[k]]
    requires forall k | 0 <= k < |bt| :: Named(b.children)[k] == b.children[bt[k]]
    ensures |at| == |bt| && forall p | 0 <= p < |at| :: a.children[at[p]].name == b.children[bt[p]].name
  {
    hide ReadInt, Named, Numbered, Size, NumbersMatch;
    ListedAreSmaller(a);
    SizePositive(a);
    assert NamesMatch(Named(a.children), Named(b.children), Size(a) - 1);
    forall p | 0 <= p < |at|
      ensures a.children[at[p]].name == b.children[bt[p]].name
    {
      assert Named(a.children)[p].name == Named(b.children)[p].name;
    }
  }

  lemma NamesInOrder(
    cs: seq<Child>, ds: seq<Child>, at: seq<nat>, bt: seq<nat>, i: nat, k: nat, j: nat, l: nat)
    requires Picks(cs, at, false) && Picks(ds, bt, false) && |at| == |bt|
    requires forall p | 0 <= p < |at| :: cs[at[p]].name == ds[bt[p]].name
    requires forall x, y | 0 <= x < y < |ds| :: ds[x].name != ds[y].name
    requires i < k < |cs| && j < |ds| && l < |ds| && ReadInt(cs[i].name).None? && ReadInt(cs[k].name).None?
    requires cs[i].name == ds[j].name && cs[k].name == ds[l].name
    ensures j < l
  {
    hide ReadInt, Picks;
    var p := PickedAt(cs, at, i);
    var q := PickedAt(cs, at, k);
    PicksAscend(cs, at, p, q);
    PicksAscend(ds, bt, p, q);
    assert bt[p] == j && bt[q] == l;
  }

  lemma PickedAt(cs: seq<Child>, at: seq<nat>, i: nat) returns (p: nat)
    requires Picks(cs, at, false) && i < |cs| && ReadInt(cs[i].name).None?
    ensures p < |at| && at[p] == i
  {
    hide ReadInt;
    assert i in at;
    p :| 0 <= p < |at| && at[p] == i;
  }

  lemma PicksAscend(cs: seq<Child>, at: seq<nat>, p: nat, q: nat)
    requires Picks(cs, at, false) && p < |at| && q < |at|
    ensures at[p] < |cs| && at[q] < |cs| && (at[p] < at[q] <==> p < q)
  {
    hide ReadInt;
  }

  /** The names and numbers of two children agree. */
  ghost predicate NamesAgree(c: Child, d: Child) {
    if ReadInt(c.name).Some? then ReadInt(d.name) == ReadInt(c.name) else d.name == c.name
  }

  lemma PartnersBy(c: Child, d: Child)
    requires NamesAgree(c, d) && Same(c.module_, d.module_)
    ensures Partners(c, d)
  {
    hide ReadInt;
  }

  lemma SameBy(a: Module, b: Module)
    requires a.info == b.info && InOneOrder(a.children, b.children)
    requires forall i | 0 <= i < |a.children| :: HasPartner(a.children[i], b.children)
    requires forall j | 0 <= j < |b.children| :: IsPartner(a.children, b.children[j])
    ensures Same(a, b)
  {
    hide InOneOrder, HasPartner, IsPartner;
  }

  lemma {:induction false} MatchIsSame(a: Module, b: Module)
    requires Matches(a, b) && Clean(a) && Clean(b)
    ensures Same(a, b)
    decreases a
  {
    SameOrder(a, b);
    CleanBelow(a);
    CleanBelow(b);
    assert a.info == b.info;
    hide Matches, Same, Partners, InOneOrder, NamesAgree, Clean;
    forall i | 0 <= i < |a.children|
      ensures HasPartner(a.children[i], b.children)
    {
      var j := PartnerOf(a, b, i);
      MatchIsSame(a.children[i].module_, b.children[j].module_);
      PartnersBy(a.children[i], b.children[j]);
    }
    forall j | 0 <= j < |b.children|
      ensures IsPartner(a.children, b.children[j])
    {
      var i := PartnerFor(a, b, j);
      MatchIsSame(a.children[i].module_, b.children[j].module_);
      PartnersBy(a.children[i], b.children[j]);
    }
    SameBy(a, b);
  }

  lemma CleanBelow(m: Module)
    requires Clean(m)
    ensures forall i | 0 <= i < |m.children| :: Clean(m.children[i].module_)
  {
  }

  /** Modules that collapse to the same tree are the same, up to the order of numbered children. */
  lemma CollapseDetermines(a: Module, b: Module)
    requires Proper(a) && Proper(b) && Collapse(a) == Collapse(b)
    ensures Same(a, b)
  {
    hide Matches, Same, Collapse, Clean, Printable;
    CollapseMatches(a, b);
    MatchIsSame(a, b);
  }

  /** Models printed alike are the same. */
  lemma PrintoutDetermines(a: Module, b: Module)
    requires Proper(a) && Proper(b) && Printout(a) == Printout(b)
    ensures Same(a, b)
  {
    hide *;
    PrintoutIsCollapse(a, b);
    CollapseDetermines(a, b);
  }
}
