/** Which models are printed alike (overlay/vllm/model_inspection.py). */
module PrintedAlike {
  import opened Wrappers
  import opened Integers
  import opened ModelInspection
  import opened ModelText
  import opened ModelPrinter
  import opened ModelPrinterCorrect

  // ---------------------------------------------------------------------------------------
  // Exactly
  // ---------------------------------------------------------------------------------------

  /** The groups come in the same order, each with the same numbers, as often, and with representatives that are
      alike; the named children come in the same order, with the same names, and are alike. */
  ghost predicate Alike(a: Module, b: Module)
    decreases Size(a), 1
  {
    && a.info == b.info
    && |Named(a.children)| == |Named(b.children)| && |GroupsOf(a)| == |GroupsOf(b)|
    && (forall i | 0 <= i < |Named(a.children)| :: NamedAlike(a, b, i))
    && (forall i | 0 <= i < |GroupsOf(a)| :: GroupsAlike(a, b, i))
  }

  ghost predicate NamedAlike(a: Module, b: Module, i: nat)
    requires i < |Named(a.children)| && i < |Named(b.children)|
    decreases Size(a), 0
  {
    var c, d := Named(a.children)[i], Named(b.children)[i];
    ListedAreSmaller(a);
    c.name == d.name && Alike(c.module_, d.module_)
  }

  ghost predicate GroupsAlike(a: Module, b: Module, i: nat)
    requires i < |GroupsOf(a)| && i < |GroupsOf(b)|
    decreases Size(a), 0
  {
    var g, h := GroupsOf(a)[i], GroupsOf(b)[i];
    GroupIsSmaller(a, i);
    && h.members != [] && Sort(Indices(g.members)) == Sort(Indices(h.members))
    && Alike(g.members[0].module_, h.members[0].module_)
  }

  lemma GroupIsSmaller(m: Module, i: nat)
    requires i < |GroupsOf(m)|
    ensures GroupsOf(m)[i].members != [] && Size(GroupsOf(m)[i].members[0].module_) < Size(m)
  {
    PartsAreSmaller(m);
    assert GroupsOf(m)[i] in GroupsOf(m);
  }

  lemma SameTitle(g: Group, h: Group)
    requires g.members != [] && h.members != []
    ensures IndexText(g) == IndexText(h) <==> Sort(Indices(g.members)) == Sort(Indices(h.members))
    ensures Sort(Indices(g.members)) == Sort(Indices(h.members)) ==> |g.members| == |h.members|
  {
    var xs, ys := Sort(Indices(g.members)), Sort(Indices(h.members));
    IndexTextIsRanges(g);
    IndexTextIsRanges(h);
    SortKeepsSize(Indices(g.members));
    SortKeepsSize(Indices(h.members));
    RunsOfSorted(xs);
    RunsOfSorted(ys);
    hide IndexText, Sort, Runs, RangesText, Expand;
    if IndexText(g) == IndexText(h) {
      RangesTextInjective(Runs(xs), Runs(ys));
    }
  }

  lemma {:induction false} CollapseIsAlike(a: Module, b: Module)
    requires Proper(a) && Proper(b) && Collapse(a) == Collapse(b)
    ensures Alike(a, b)
    decreases Size(a)
  {
    hide Collapse, GroupsOf, Named, Proper, Size, IndexText, Sort, Alike;
    SameGroupCount(a, b);
    CollapseInfo(a);
    CollapseInfo(b);
    forall i | 0 <= i < |GroupsOf(a)|
      ensures GroupsAlike(a, b, i)
    {
      RepresentativeShown(a, i);
      RepresentativeShown(b, i);
      SameTitle(GroupsOf(a)[i], GroupsOf(b)[i]);
      CollapseIsAlike(GroupsOf(a)[i].members[0].module_, GroupsOf(b)[i].members[0].module_);
    }
    forall i | 0 <= i < |Named(a.children)|
      ensures NamedAlike(a, b, i)
    {
      var c, d := Named(a.children)[i], Named(b.children)[i];
      NamedBlocks(a, i);
      NamedBlocks(b, i);
      ListedAreSmaller(a);
      assert c in Named(a.children) && d in Named(b.children);
      NamedProper(a, c);
      NamedProper(b, d);
      CollapseIsAlike(c.module_, d.module_);
    }
    AlikeParts(a, b);
  }

  lemma AlikeParts(a: Module, b: Module)
    requires a.info == b.info && |Named(a.children)| == |Named(b.children)| && |GroupsOf(a)| == |GroupsOf(b)|
    requires forall i | 0 <= i < |Named(a.children)| :: NamedAlike(a, b, i)
    requires forall i | 0 <= i < |GroupsOf(a)| :: GroupsAlike(a, b, i)
    ensures Alike(a, b)
  {
    hide NamedAlike, GroupsAlike, GroupsOf, Named;
  }

  lemma {:induction false} AlikeIsCollapse(a: Module, b: Module)
    requires Proper(a) && Proper(b) && Alike(a, b)
    ensures Collapse(a) == Collapse(b)
    decreases Size(a)
  {
    hide Collapse, GroupsOf, Named, Proper, Size, IndexText, Sort;
    var v, w := Collapse(a), Collapse(b);
    BlockCount(a);
    BlockCount(b);
    CollapseInfo(a);
    CollapseInfo(b);
    forall j | 0 <= j < |v.blocks|
      ensures v.blocks[j] == w.blocks[j]
    {
      if j < |GroupsOf(a)| {
        assert GroupsAlike(a, b, j);
        RepresentativeShown(a, j);
        RepresentativeShown(b, j);
        SameTitle(GroupsOf(a)[j], GroupsOf(b)[j]);
        AlikeIsCollapse(GroupsOf(a)[j].members[0].module_, GroupsOf(b)[j].members[0].module_);
      } else {
        var i := j - |GroupsOf(a)|;
        assert NamedAlike(a, b, i);
        var c, d := Named(a.children)[i], Named(b.children)[i];
        NamedBlocks(a, i);
        NamedBlocks(b, i);
        ListedAreSmaller(a);
        assert c in Named(a.children) && d in Named(b.children);
        NamedProper(a, c);
        NamedProper(b, d);
        AlikeIsCollapse(c.module_, d.module_);
      }
    }
  }

  /** Two models have the same printed text exactly when they are alike. */
  lemma PrintedAlikeExactly(a: Module, b: Module)
    requires Proper(a) && Proper(b)
    ensures Printout(a) == Printout(b) <==> Alike(a, b)
  {
    if Printout(a) == Printout(b) {
      hide *;
      PrintoutIsCollapse(a, b);
      CollapseIsAlike(a, b);
    } else if Alike(a, b) {
      AlikeIsCollapse(a, b);
      hide Collapse, Render, Alike, Proper;
    }
  }

  // ---------------------------------------------------------------------------------------
  // Spelling
  // ---------------------------------------------------------------------------------------

  /** The same numbered modules under other spellings of their numbers, here and below named children. */
  ghost predicate Respelled(a: Module, b: Module)
    decreases a
  {
    && a.info == b.info && |a.children| == |b.children|
    && forall i | 0 <= i < |a.children| :: RespelledChild(a.children[i], b.children[i])
  }

  ghost predicate RespelledChild(c: Child, d: Child)
    decreases c
  {
    if ReadInt(c.name).Some? then ReadInt(d.name) == ReadInt(c.name) && d.module_ == c.module_
    else d.name == c.name && Respelled(c.module_, d.module_)
  }

  ghost predicate RespelledChildren(cs: seq<Child>, ds: seq<Child>) {
    |cs| == |ds| && forall i | 0 <= i < |cs| :: RespelledChild(cs[i], ds[i])
  }

  lemma {:induction false} SameNumbered(cs: seq<Child>, ds: seq<Child>)
    requires RespelledChildren(cs, ds)
    ensures Numbered(cs) == Numbered(ds) && |Named(cs)| == |Named(ds)|
    ensures forall i | 0 <= i < |Named(cs)| ::
              Named(cs)[i].name == Named(ds)[i].name && Respelled(Named(cs)[i].module_, Named(ds)[i].module_)
    decreases |cs|
  {
    if cs != [] {
      var n := |cs| - 1;
      assert RespelledChild(cs[n], ds[n]);
      hide ReadInt, Respelled;
      SameNumbered(cs[..n], ds[..n]);
    }
  }

  lemma SameGroups(a: Module, b: Module)
    requires Numbered(a.children) == Numbered(b.children)
    ensures GroupsOf(a) == GroupsOf(b)
  {
  }

  lemma RespelledParts(a: Module, b: Module)
    requires Respelled(a, b)
    ensures a.info == b.info && GroupsOf(a) == GroupsOf(b) && |Named(a.children)| == |Named(b.children)|
    ensures forall i | 0 <= i < |Named(a.children)| :: RespelledNamed(a, b, i)
  {
    hide ReadInt, GroupsOf, Named, Numbered;
    assert RespelledChildren(a.children, b.children);
    SameNumbered(a.children, b.children);
    SameGroups(a, b);
    hide Respelled;
  }

  ghost predicate RespelledNamed(a: Module, b: Module, i: nat)
    requires i < |Named(a.children)| && i < |Named(b.children)|
  {
    var c, d := Named(a.children)[i], Named(b.children)[i];
    c.name == d.name && Respelled(c.module_, d.module_)
  }

  lemma SameBlocksOf(a: Module, b: Module)
    requires a.info == b.info && GroupsOf(a) == GroupsOf(b) && |Named(a.children)| == |Named(b.children)|
    requires forall i | 0 <= i < |Named(a.children)| ::
               && Named(a.children)[i].name == Named(b.children)[i].name
               && Collapse(Named(a.children)[i].module_) == Collapse(Named(b.children)[i].module_)
    ensures Collapse(a) == Collapse(b)
  {
    hide Collapse, GroupsOf, Named, GroupEntry;
    var v, w := Collapse(a), Collapse(b);
    BlockCount(a);
    BlockCount(b);
    CollapseInfo(a);
    CollapseInfo(b);
    forall j | 0 <= j < |v.blocks|
      ensures v.blocks[j] == w.blocks[j]
    {
      if j < |GroupsOf(a)| {
        GroupBlocks(a, j);
        GroupBlocks(b, j);
      } else {
        NamedBlocks(a, j - |GroupsOf(a)|);
        NamedBlocks(b, j - |GroupsOf(a)|);
      }
    }
  }

  /** Another spelling of a number is lost. */
  lemma {:induction false} RespelledPrintsAlike(a: Module, b: Module)
    requires Respelled(a, b)
    ensures Collapse(a) == Collapse(b) && Printout(a) == Printout(b)
    decreases Size(a)
  {
    hide Respelled, Collapse, GroupsOf, Named, Numbered, Size, Render;
    RespelledParts(a, b);
    ListedAreSmaller(a);
    forall i | 0 <= i < |Named(a.children)|
      ensures Named(a.children)[i].name == Named(b.children)[i].name
      ensures Collapse(Named(a.children)[i].module_) == Collapse(Named(b.children)[i].module_)
    {
      assert RespelledNamed(a, b, i);
      RespelledPrintsAlike(Named(a.children)[i].module_, Named(b.children)[i].module_);
    }
    SameBlocksOf(a, b);
  }

  lemma {:induction false} RespelledSelf(m: Module)
    ensures Respelled(m, m)
    decreases m
  {
    forall i | 0 <= i < |m.children|
      ensures RespelledChild(m.children[i], m.children[i])
    {
      RespelledSelf(m.children[i].module_);
    }
  }

  /** Any numbered child of any module can be given any other spelling of its number: the text stays, and the
      modules are the same only if the spelling is. */
  lemma SpellingIsLost(m: Module, i: nat, name: string)
    requires i < |m.children| && ReadInt(m.children[i].name).Some? && ReadInt(name) == ReadInt(m.children[i].name)
    ensures
      var other := m.(children := m.children[i := Child(name, m.children[i].module_)]);
      Printout(other) == Printout(m) && (other == m <==> name == m.children[i].name)
  {
    var other := m.(children := m.children[i := Child(name, m.children[i].module_)]);
    RespelledSelf(m);
    hide ReadInt, Collapse, Render;
    forall j | 0 <= j < |m.children|
      ensures RespelledChild(m.children[j], other.children[j])
    {
      assert RespelledChild(m.children[j], m.children[j]);
    }
    RespelledPrintsAlike(m, other);
    assert other == m ==> other.children[i] == m.children[i];
    assert name == m.children[i].name ==> other.children == m.children;
  }
}
