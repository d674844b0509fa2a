/** Printing a module tree with identical numbered children collapsed (overlay/vllm/model_inspection.py).
    ModelPrinterCorrect proves that the printout determines the tree. */
module ModelPrinter {
  import opened Common
  import opened Integers
  import opened Wrappers
  import opened Text
  import opened ModelInspection
  import opened ModelText

  datatype Member = Member(idx: int, module_: Module)

  datatype Group = Group(signature: string, members: seq<Member>)

  function Numbered(cs: seq<Child>): seq<Member> {
    if cs == [] then [] else
      Numbered(cs[..|cs| - 1]) +
      var c := cs[|cs| - 1];
      if ReadInt(c.name).Some? then [Member(ReadInt(c.name).value, c.module_)] else []
  }

  function Named(cs: seq<Child>): seq<Child> {
    if cs == [] then [] else
      Named(cs[..|cs| - 1]) +
      var c := cs[|cs| - 1];
      if ReadInt(c.name).Some? then [] else [c]
  }

  /** `sig_to_group.setdefault(sig, []).append(member)`. */
  function AddTo(gs: seq<Group>, signature: string, m: Member): seq<Group> {
    if gs == [] then [Group(signature, [m])]
    else if gs[0].signature == signature then [Group(signature, gs[0].members + [m])] + gs[1..]
    else [gs[0]] + AddTo(gs[1..], signature, m)
  }

  function GroupUp(ms: seq<Member>): seq<Group> {
    if ms == [] then [] else
      var m := ms[|ms| - 1];
      AddTo(GroupUp(ms[..|ms| - 1]), Signature(m.module_), m)
  }

  /** Stable insertion by the first index of a group. */
  function InsertGroup(g: Group, gs: seq<Group>): seq<Group> {
    if gs == [] then [g]
    else if g.members != [] && gs[0].members != [] && g.members[0].idx <= gs[0].members[0].idx then [g] + gs
    else [gs[0]] + InsertGroup(g, gs[1..])
  }

  function SortGroups(gs: seq<Group>): seq<Group> { if gs == [] then [] else InsertGroup(gs[0], SortGroups(gs[1..])) }

  function Indices(ms: seq<Member>): seq<int> { seq(|ms|, i requires 0 <= i < |ms| => ms[i].idx) }

  // ---------------------------------------------------------------------------------------
  // Groups hold the numbered children, each once, with the modules of their signature
  // ---------------------------------------------------------------------------------------

  ghost predicate Sound(gs: seq<Group>, ms: seq<Member>) {
    forall g <- gs ::
      && g.members != []
      && (forall m <- g.members :: m in ms && Signature(m.module_) == g.signature)
  }

  ghost predicate Complete(gs: seq<Group>, ms: seq<Member>) {
    forall m <- ms :: exists g :: g in gs && m in g.members
  }

  ghost predicate Once(gs: seq<Group>) { forall g <- gs :: Distinct(Indices(g.members)) }

  predicate DistinctNumbers(ms: seq<Member>) { forall i, j | 0 <= i < j < |ms| :: ms[i].idx != ms[j].idx }

  lemma {:induction false} AddToGroups(gs: seq<Group>, signature: string, m: Member, g: Group)
    ensures g in AddTo(gs, signature, m) ==>
              || g in gs
              || g == Group(signature, [m])
              || exists h :: h in gs && h.signature == signature && g == Group(signature, h.members + [m])
    decreases |gs|
  {
    if gs != [] && gs[0].signature != signature {
      AddToGroups(gs[1..], signature, m, g);
    }
  }

  lemma {:induction false} AddToKeeps(gs: seq<Group>, signature: string, m: Member)
    ensures exists g :: g in AddTo(gs, signature, m) && m in g.members
    ensures forall h <- gs :: exists g :: g in AddTo(gs, signature, m) && forall x <- h.members :: x in g.members
    decreases |gs|
  {
    var r := AddTo(gs, signature, m);
    if gs == [] {
      assert r[0] in r;
    } else if gs[0].signature == signature {
      assert r[0] in r;
      forall h | h in gs
        ensures exists g :: g in r && forall x <- h.members :: x in g.members
      {
        var i :| 0 <= i < |gs| && gs[i] == h;
        assert r[i] in r && forall x <- h.members :: x in r[i].members;
      }
    } else {
      AddToKeeps(gs[1..], signature, m);
      var tail := AddTo(gs[1..], signature, m);
      assert forall g <- tail :: g in r;
      var g :| g in tail && m in g.members;
      assert g in r;
      forall h | h in gs
        ensures exists g :: g in r && forall x <- h.members :: x in g.members
      {
        if h == gs[0] { assert r[0] in r; } else { assert h in gs[1..]; }
      }
    }
  }

  lemma {:induction false} GroupsSound(ms: seq<Member>)
    ensures Sound(GroupUp(ms), ms)
    decreases |ms|
  {
    if ms != [] {
      var rest, m := ms[..|ms| - 1], ms[|ms| - 1];
      GroupsSound(rest);
      forall g | g in GroupUp(ms)
        ensures g.members != []
        ensures forall x <- g.members :: x in ms && Signature(x.module_) == g.signature
      {
        AddToGroups(GroupUp(rest), Signature(m.module_), m, g);
      }
    }
  }

  lemma {:induction false} GroupsComplete(ms: seq<Member>)
    ensures Complete(GroupUp(ms), ms)
    decreases |ms|
  {
    if ms != [] {
      var rest, m := ms[..|ms| - 1], ms[|ms| - 1];
      GroupsComplete(rest);
      AddToKeeps(GroupUp(rest), Signature(m.module_), m);
      forall x | x in ms
        ensures exists g :: g in GroupUp(ms) && x in g.members
      {
        if x != m {
          assert x in rest;
          var h :| h in GroupUp(rest) && x in h.members;
        }
      }
    }
  }

  lemma {:induction false} GroupsOnce(ms: seq<Member>)
    requires DistinctNumbers(ms)
    ensures Once(GroupUp(ms))
    decreases |ms|
  {
    if ms != [] {
      var rest, m := ms[..|ms| - 1], ms[|ms| - 1];
      GroupsOnce(rest);
      GroupsSound(rest);
      forall g | g in GroupUp(ms)
        ensures Distinct(Indices(g.members))
      {
        AddToGroups(GroupUp(rest), Signature(m.module_), m, g);
        hide GroupUp, Signature;
        if g !in GroupUp(rest) && g != Group(Signature(m.module_), [m]) {
          var h :| h in GroupUp(rest) && g == Group(Signature(m.module_), h.members + [m]);
          GrownOnce(h.members, m, ms);
        }
      }
    }
  }

  lemma GrownOnce(members: seq<Member>, m: Member, ms: seq<Member>)
    requires Distinct(Indices(members)) && ms != [] && m == ms[|ms| - 1] && DistinctNumbers(ms)
    requires forall x <- members :: x in ms[..|ms| - 1]
    ensures Distinct(Indices(members + [m]))
  {
    forall i | 0 <= i < |members|
      ensures members[i].idx != m.idx
    {
      assert members[i] in members && members[i] in ms[..|ms| - 1];
      var k :| 0 <= k < |ms| - 1 && ms[..|ms| - 1][k] == members[i];
      assert ms[k].idx != m.idx;
    }
    assert Indices(members + [m]) == Indices(members) + [m.idx];
  }

  lemma {:induction false} InsertGroupKeeps(g: Group, gs: seq<Group>, x: Group)
    ensures x in InsertGroup(g, gs) <==> x == g || x in gs
    decreases |gs|
  {
    if gs != [] {
      InsertGroupKeeps(g, gs[1..], x);
      assert gs == [gs[0]] + gs[1..];
    }
  }

  lemma {:induction false} SortGroupsKeeps(gs: seq<Group>, x: Group)
    ensures x in SortGroups(gs) <==> x in gs
    decreases |gs|
  {
    if gs != [] {
      SortGroupsKeeps(gs[1..], x);
      InsertGroupKeeps(gs[0], SortGroups(gs[1..]), x);
      assert gs == [gs[0]] + gs[1..];
    }
  }

  ghost predicate OneEach(gs: seq<Group>) { forall i, j | 0 <= i < j < |gs| :: gs[i].signature != gs[j].signature }

  /** No two groups have the same signature. */
  lemma {:induction false} AddToKeepsOneEach(gs: seq<Group>, signature: string, m: Member)
    requires OneEach(gs)
    ensures OneEach(AddTo(gs, signature, m))
    ensures forall g <- AddTo(gs, signature, m) ::
              g.signature == signature || exists h :: h in gs && h.signature == g.signature
    decreases |gs|
  {
    if gs != [] && gs[0].signature != signature {
      AddToKeepsOneEach(gs[1..], signature, m);
      var tail := AddTo(gs[1..], signature, m);
      forall i | 0 <= i < |tail| ensures tail[i].signature != gs[0].signature {
        assert tail[i] in tail;
      }
    }
  }

  lemma {:induction false} GroupsOneEach(ms: seq<Member>)
    ensures OneEach(GroupUp(ms))
    decreases |ms|
  {
    if ms != [] {
      GroupsOneEach(ms[..|ms| - 1]);
      AddToKeepsOneEach(GroupUp(ms[..|ms| - 1]), Signature(ms[|ms| - 1].module_), ms[|ms| - 1]);
    }
  }

  ghost predicate NonEmpty(gs: seq<Group>) { forall i | 0 <= i < |gs| :: gs[i].members != [] }

  /** Groups come by their first index. */
  ghost predicate Ordered(gs: seq<Group>)
    requires NonEmpty(gs)
  {
    forall i, j | 0 <= i < j < |gs| :: gs[i].members[0].idx <= gs[j].members[0].idx
  }

  lemma {:induction false} InsertGroupOrders(g: Group, gs: seq<Group>)
    requires g.members != [] && NonEmpty(gs) && Ordered(gs) && OneEach(gs)
    requires forall h <- gs :: h.signature != g.signature
    ensures NonEmpty(InsertGroup(g, gs)) && Ordered(InsertGroup(g, gs)) && OneEach(InsertGroup(g, gs))
    decreases |gs|
  {
    var r := InsertGroup(g, gs);
    if gs == [] || g.members[0].idx <= gs[0].members[0].idx {
      assert r == [g] + gs;
      assert forall i | 0 <= i < |gs| :: gs[i] in gs;
    } else {
      InsertGroupOrders(g, gs[1..]);
      var tail := InsertGroup(g, gs[1..]);
      forall i | 0 <= i < |tail|
        ensures tail[i].members != [] && gs[0].members[0].idx <= tail[i].members[0].idx
                  && tail[i].signature != gs[0].signature
      {
        InsertGroupKeeps(g, gs[1..], tail[i]);
        assert tail[i] in tail && gs[0] in gs;
      }
    }
  }

  lemma {:induction false} SortGroupsOrders(gs: seq<Group>)
    requires NonEmpty(gs) && OneEach(gs)
    ensures NonEmpty(SortGroups(gs)) && Ordered(SortGroups(gs)) && OneEach(SortGroups(gs))
    decreases |gs|
  {
    if gs != [] {
      SortGroupsOrders(gs[1..]);
      forall h | h in SortGroups(gs[1..]) ensures h.signature != gs[0].signature {
        SortGroupsKeeps(gs[1..], h);
        var i :| 0 <= i < |gs[1..]| && gs[1..][i] == h;
        assert gs[i + 1] == h;
      }
      InsertGroupOrders(gs[0], SortGroups(gs[1..]));
    }
  }

  function GroupsOf(m: Module): seq<Group> { SortGroups(GroupUp(Numbered(m.children))) }

  lemma GroupsOfAreGroups(m: Module)
    ensures Sound(GroupsOf(m), Numbered(m.children)) && Complete(GroupsOf(m), Numbered(m.children))
    ensures DistinctNumbers(Numbered(m.children)) ==> Once(GroupsOf(m))
  {
    var ms := Numbered(m.children);
    GroupsSound(ms);
    GroupsComplete(ms);
    if DistinctNumbers(ms) { GroupsOnce(ms); }
    forall g { SortGroupsKeeps(GroupUp(ms), g); }
  }

  /** There is one group for every signature, and groups come by their first index. */
  lemma GroupsOfAreOrdered(m: Module)
    ensures NonEmpty(GroupsOf(m)) && Ordered(GroupsOf(m)) && OneEach(GroupsOf(m))
  {
    var ms := Numbered(m.children);
    GroupsSound(ms);
    GroupsOneEach(ms);
    assert NonEmpty(GroupUp(ms)) by {
      forall i | 0 <= i < |GroupUp(ms)| ensures GroupUp(ms)[i].members != [] { assert GroupUp(ms)[i] in GroupUp(ms); }
    }
    SortGroupsOrders(GroupUp(ms));
  }

  // ---------------------------------------------------------------------------------------
  // The collapsed tree
  // ---------------------------------------------------------------------------------------

  predicate IsSpace(c: char) { IsBlank(c) || c in "\U{1C}\U{1D}\U{1E}\U{1F}" }

  /** `lstrip`. */
  function Strip(s: string): string { if s != "" && IsSpace(s[0]) then Strip(s[1..]) else s }

  /** What one entry under a module stands for: the text in brackets, how many modules, one of them. */
  datatype Entry = Entry(title: string, count: nat, module_: Module)

  function IndexText(g: Group): string
    requires g.members != []
  {
    var sorted := Sort(Indices(g.members));
    SortKeepsSize(Indices(g.members));
    RunsOfSorted(sorted);
    RangesText(Runs(sorted))
  }

  function GroupEntry(g: Group): Entry
    requires g.members != []
  {
    var m := g.members[0].module_;
    Entry(IndexText(g), |g.members|, m.(info := Strip(m.info)))
  }

  function GroupEntries(gs: seq<Group>): seq<Entry>
    requires forall g <- gs :: g.members != []
  {
    seq(|gs|, i requires 0 <= i < |gs| => GroupEntry(gs[i]))
  }

  function NamedEntries(cs: seq<Child>): seq<Entry> {
    seq(|cs|, i requires 0 <= i < |cs| => Entry(cs[i].name, 1, cs[i].module_))
  }

  function Entries(m: Module): (es: seq<Entry>) {
    GroupsOfAreGroups(m);
    GroupEntries(GroupsOf(m)) + NamedEntries(Named(m.children))
  }

  // ---------------------------------------------------------------------------------------
  // Every child is listed, as what its name makes it
  // ---------------------------------------------------------------------------------------

  /** `at` names the children of one kind in registration order: those `int` reads a number in, or the others. */
  ghost predicate Picks(cs: seq<Child>, at: seq<nat>, numbered: bool) {
    && (forall k | 0 <= k < |at| :: at[k] < |cs|)
    && (forall k, l | 0 <= k < l < |at| :: at[k] < at[l])
    && (forall i: nat | i < |cs| :: i in at <==> (ReadInt(cs[i].name).Some? <==> numbered))
  }

  lemma PicksMore(cs: seq<Child>, at: seq<nat>, numbered: bool) returns (more: seq<nat>)
    requires cs != [] && Picks(cs[..|cs| - 1], at, numbered)
    ensures Picks(cs, more, numbered)
    ensures more == if ReadInt(cs[|cs| - 1].name).Some? == numbered then at + [|cs| - 1] else at
  {
    var n := |cs| - 1;
    more := if ReadInt(cs[n].name).Some? == numbered then at + [n] else at;
    forall i: nat | i < |cs|
      ensures i in more <==> (ReadInt(cs[i].name).Some? <==> numbered)
    {
      if i < n { assert cs[..n][i] == cs[i]; }
    }
  }

  function AsNamed(c: Child): seq<Child> { if ReadInt(c.name).Some? then [] else [c] }

  lemma NamedStep(cs: seq<Child>)
    requires cs != []
    ensures Named(cs) == Named(cs[..|cs| - 1]) + AsNamed(cs[|cs| - 1])
  {
    hide ReadInt;
  }

  /** The named children are the children without a number, all of them, in registration order. */
  lemma {:induction false} NamedInOrder(cs: seq<Child>) returns (at: seq<nat>)
    ensures Picks(cs, at, false) && |Named(cs)| == |at|
    ensures forall k | 0 <= k < |at| :: Named(cs)[k] == cs[at[k]]
    decreases |cs|
  {
    hide ReadInt;
    if cs == [] {
      at := [];
    } else {
      var rest := cs[..|cs| - 1];
      var before := NamedInOrder(rest);
      at := PicksMore(cs, before, false);
      PicksInside(rest, before, false);
      NamedStep(cs);
      hide Picks, Named;
      assert forall k | 0 <= k < |before| :: rest[before[k]] == cs[before[k]];
    }
  }

  function AsMember(c: Child): seq<Member> {
    if ReadInt(c.name).Some? then [Member(ReadInt(c.name).value, c.module_)] else []
  }

  lemma NumberedStep(cs: seq<Child>)
    requires cs != []
    ensures Numbered(cs) == Numbered(cs[..|cs| - 1]) + AsMember(cs[|cs| - 1])
  {
    hide ReadInt;
  }

  /** The numbered children are the children with a number, all of them, in registration order. */
  lemma {:induction false} NumberedInOrder(cs: seq<Child>) returns (at: seq<nat>)
    ensures Picks(cs, at, true) && |Numbered(cs)| == |at|
    ensures forall k | 0 <= k < |at| ::
              Some(Numbered(cs)[k].idx) == ReadInt(cs[at[k]].name) && Numbered(cs)[k].module_ == cs[at[k]].module_
    decreases |cs|
  {
    hide ReadInt;
    if cs == [] {
      at := [];
    } else {
      var rest := cs[..|cs| - 1];
      var before := NumberedInOrder(rest);
      at := PicksMore(cs, before, true);
      PicksInside(rest, before, true);
      NumberedStep(cs);
      hide Picks, Numbered;
      assert forall k | 0 <= k < |before| :: rest[before[k]] == cs[before[k]];
    }
  }

  lemma PicksInside(cs: seq<Child>, at: seq<nat>, numbered: bool)
    requires Picks(cs, at, numbered)
    ensures forall k | 0 <= k < |at| :: at[k] < |cs|
  {
  }

  /** No child is lost and none is listed twice. */
  lemma {:induction false} EveryChildIsOne(cs: seq<Child>)
    ensures |Named(cs)| + |Numbered(cs)| == |cs|
    decreases |cs|
  {
    if cs != [] { EveryChildIsOne(cs[..|cs| - 1]); }
  }

  lemma {:induction false} NumberedAreChildren(cs: seq<Child>, x: Member)
    requires x in Numbered(cs)
    ensures exists i :: 0 <= i < |cs| && ReadInt(cs[i].name) == Some(x.idx) && cs[i].module_ == x.module_
    decreases |cs|
  {
    if x in Numbered(cs[..|cs| - 1]) {
      NumberedAreChildren(cs[..|cs| - 1], x);
      var i :| 0 <= i < |cs| - 1 && ReadInt(cs[i].name) == Some(x.idx) && cs[i].module_ == x.module_;
    } else {
      assert ReadInt(cs[|cs| - 1].name) == Some(x.idx) && cs[|cs| - 1].module_ == x.module_;
    }
  }

  lemma {:induction false} NamedAreChildren(cs: seq<Child>, c: Child)
    requires c in Named(cs)
    ensures c in cs && ReadInt(c.name).None?
    decreases |cs|
  {
    if c in Named(cs[..|cs| - 1]) {
      NamedAreChildren(cs[..|cs| - 1], c);
    }
  }

  /** What is listed under a module is smaller than it. */
  lemma PartsAreSmaller(m: Module)
    ensures Size(m) > 0
    ensures forall g <- GroupsOf(m) :: g.members != [] && Size(g.members[0].module_) <= Size(m) - 1
    ensures forall c <- Named(m.children) :: Size(c.module_) <= Size(m) - 1
  {
    GroupsOfAreGroups(m);
    forall g | g in GroupsOf(m)
      ensures Size(g.members[0].module_) <= Size(m) - 1
    {
      var x := g.members[0];
      assert x in g.members;
      NumberedAreChildren(m.children, x);
      var j :| 0 <= j < |m.children| && m.children[j].module_ == x.module_;
      ChildIsSmaller(m.children, j);
    }
    forall c | c in Named(m.children)
      ensures Size(c.module_) <= Size(m) - 1
    {
      NamedAreChildren(m.children, c);
      var j :| 0 <= j < |m.children| && m.children[j] == c;
      ChildIsSmaller(m.children, j);
    }
  }

  lemma EntrySize(g: Group)
    requires g.members != []
    ensures Size(GroupEntry(g).module_) == Size(g.members[0].module_)
  {
  }

  lemma GroupEntriesAreSmaller(gs: seq<Group>, e: Entry, bound: nat)
    requires forall g <- gs :: g.members != [] && Size(g.members[0].module_) <= bound
    requires e in GroupEntries(gs)
    ensures Size(e.module_) <= bound
  {
    hide GroupEntry, Size;
    var i :| 0 <= i < |gs| && GroupEntry(gs[i]) == e;
    assert gs[i] in gs;
    EntrySize(gs[i]);
  }

  lemma NamedEntriesAreSmaller(cs: seq<Child>, e: Entry, bound: nat)
    requires forall c <- cs :: Size(c.module_) <= bound
    requires e in NamedEntries(cs)
    ensures Size(e.module_) <= bound
  {
    hide Size;
    var i :| 0 <= i < |cs| && NamedEntries(cs)[i] == e;
    assert cs[i] in cs;
  }

  lemma EntriesAreSmaller(m: Module, e: Entry)
    requires e in Entries(m)
    ensures Size(e.module_) < Size(m)
  {
    PartsAreSmaller(m);
    var es, fs := GroupEntries(GroupsOf(m)), NamedEntries(Named(m.children));
    assert Entries(m) == es + fs;
    hide *;
    assert e in es || e in fs;
    if e in es {
      GroupEntriesAreSmaller(GroupsOf(m), e, Size(m) - 1);
    } else {
      NamedEntriesAreSmaller(Named(m.children), e, Size(m) - 1);
    }
  }

  /** The tree as it is shown: groups of equal numbered children first, then the other children. */
  function Collapse(m: Module): View
    decreases Size(m)
  {
    var es := Entries(m);
    View(m.info, seq(|es|, i requires 0 <= i < |es| =>
      (EntriesAreSmaller(m, es[i]); Block(es[i].title, es[i].count, Collapse(es[i].module_)))))
  }

  function Shown(e: Entry): Block { Block(e.title, e.count, Collapse(e.module_)) }

  lemma CollapseIsShown(m: Module)
    ensures |Collapse(m).blocks| == |Entries(m)|
    ensures forall i | 0 <= i < |Entries(m)| :: Collapse(m).blocks[i] == Shown(Entries(m)[i])
  {
  }

  function ShownAll(es: seq<Entry>): seq<Block> { seq(|es|, i requires 0 <= i < |es| => Shown(es[i])) }

  lemma BlocksAreShown(m: Module)
    ensures Collapse(m).blocks == ShownAll(Entries(m))
  {
    CollapseIsShown(m);
  }

  lemma CollapseWithInfo(m: Module, info: string)
    ensures Collapse(m.(info := info)) == Collapse(m).(info := info)
  {
    assert Entries(m.(info := info)) == Entries(m);
    BlocksAreShown(m);
    BlocksAreShown(m.(info := info));
  }

  lemma {:induction false} EveryChildIsListed(cs: seq<Child>)
    requires cs != []
    ensures Numbered(cs) != [] || Named(cs) != []
  {
  }

  lemma SomethingIsShown(m: Module)
    ensures m.children == [] <==> Entries(m) == []
  {
    var gs := GroupsOf(m);
    GroupsOfAreGroups(m);
    if m.children != [] {
      EveryChildIsListed(m.children);
      if Named(m.children) == [] {
        var x := Numbered(m.children)[0];
        assert x in Numbered(m.children);
        assert exists g :: g in gs && x in g.members;
        assert |Entries(m)| >= |gs|;
      }
    }
  }

  // ---------------------------------------------------------------------------------------
  // Printing
  // ---------------------------------------------------------------------------------------

  method SeparateChildren(children: seq<Child>) returns (numbered: seq<Member>, named: seq<Child>)
    ensures numbered == Numbered(children) && named == Named(children)
  {
    numbered, named := [], [];
    for i := 0 to |children|
      invariant numbered == Numbered(children[..i]) && named == Named(children[..i])
    {
      assert children[..i + 1][..i] == children[..i];
      var child := children[i];
      var index := ReadInt(child.name);
      if index.Some? {
        numbered := numbered + [Member(index.value, child.module_)];
      } else {
        named := named + [child];
      }
    }
    assert children[..|children|] == children;
  }

  method GroupBySignature(numbered: seq<Member>) returns (groups: seq<Group>)
    ensures groups == GroupUp(numbered)
  {
    groups := [];
    for i := 0 to |numbered|
      invariant groups == GroupUp(numbered[..i])
    {
      assert numbered[..i + 1][..i] == numbered[..i];
      var signature := GetChildSignature(numbered[i].module_);
      groups := AddTo(groups, signature, numbered[i]);
    }
    assert numbered[..|numbered|] == numbered;
  }

  /** A step of the loop over the groups. */
  method FormatGroup(g: Group, indent: nat) returns (lines: seq<string>)
    requires g.members != []
    ensures lines == Render(Shown(GroupEntry(g)).view, indent, Head(IndexText(g), |g.members|))
    decreases Size(g.members[0].module_), 1
  {
    var indices := Indices(g.members);
    var representative := g.members[0].module_;
    lines := FormatModuleTree(representative, "", indent);
    var firstLine := Strip(lines[0]);
    GroupLines(g, indent);
    IndexTextOfOne(g);
    hide Render, Collapse, Strip, IndexText, Head, Numeral, Sort, Runs, RangesText, Shown;
    if |indices| > 1 {
      IndexTextIsRanges(g);
      var ranges := FormatIndexRanges(indices);
      lines := [Spaces(indent) + "(" + ranges + "): " + Numeral(|indices|) + " x " + firstLine] + lines[1..];
      HeadText(Spaces(indent), ranges, |indices|, firstLine);
    } else {
      lines := [Spaces(indent) + "(" + IntText(indices[0]) + "): " + firstLine] + lines[1..];
      HeadText(Spaces(indent), IntText(indices[0]), 1, firstLine);
    }
  }

  lemma HeadText(prefix: string, title: string, count: nat, rest: string)
    ensures title != "" && count > 1 ==>
              prefix + "(" + title + "): " + Numeral(count) + " x " + rest == prefix + Head(title, count) + rest
    ensures title != "" && count <= 1 ==> prefix + "(" + title + "): " + rest == prefix + Head(title, count) + rest
    ensures title == "" ==> prefix + rest == prefix + Head(title, count) + rest
  {
    hide Numeral;
    if title == "" {
      assert prefix + "" == prefix;
    } else if count > 1 {
      Flatten4(prefix, "(", title, "): ");
      var a := "(" + title + "): ";
      Flatten4(prefix, a, Numeral(count), " x ");
      assert Head(title, count) == a + Numeral(count) + " x " by { Flatten4("", a, Numeral(count), " x "); }
    } else {
      Flatten4(prefix, "(", title, "): ");
      assert Head(title, count) == "(" + title + "): " + "";
    }
  }

  lemma Flatten4(a: string, b: string, c: string, d: string)
    ensures a + b + c + d == a + (b + c + d)
    ensures b + (c + d) == b + c + d
  {
  }

  lemma IndexTextIsRanges(g: Group)
    requires g.members != []
    ensures Sort(Indices(g.members)) != [] && Runs(Sort(Indices(g.members))) != []
    ensures IndexText(g) == RangesText(Runs(Sort(Indices(g.members))))
  {
    SortKeepsSize(Indices(g.members));
    RunsOfSorted(Sort(Indices(g.members)));
  }

  lemma GroupLines(g: Group, indent: nat)
    requires g.members != []
    ensures
      var lines := Render(Collapse(g.members[0].module_), indent, "");
      var head := Head(IndexText(g), |g.members|);
      Render(Shown(GroupEntry(g)).view, indent, head) == [Spaces(indent) + head + Strip(lines[0])] + lines[1..]
  {
    var m := g.members[0].module_;
    var v := Collapse(m);
    CollapseWithInfo(m, Strip(m.info));
    HeaderStripped(v, indent);
    assert Shown(GroupEntry(g)).view == v.(info := Strip(m.info));
    assert v.info == m.info;
    RestripHeader(v, indent, Head(IndexText(g), |g.members|));
  }

  lemma RestripHeader(v: View, k: nat, head: string)
    ensures Render(v.(info := Strip(v.info)), k, head) ==
              [Spaces(k) + head + Strip(Render(v, k, "")[0])] + Render(v, k, "")[1..]
  {
    HeaderStripped(v, k);
    hide Strip;
    assert Spaces(k) + head + Strip(v.info) + "" == Spaces(k) + head + (Strip(v.info) + "");
    assert Spaces(k) + head + Strip(v.info) + "(" == Spaces(k) + head + (Strip(v.info) + "(");
  }

  method FormatHeader(m: Module, name: string, indent: nat) returns (line: string)
    ensures line == HeaderLine(Collapse(m), indent, Head(name, 1))
  {
    BlocksAreShown(m);
    SomethingIsShown(m);
    HeadText(Spaces(indent), name, 1, m.info);
    if m.children == [] {
      line := if name != "" then Spaces(indent) + "(" + name + "): " + m.info else Spaces(indent) + m.info;
      assert line + "" == line;
    } else {
      line := if name != "" then Spaces(indent) + "(" + name + "): " + m.info + "(" else Spaces(indent) + m.info + "(";
    }
  }

  lemma RenderedParts(m: Module, k: nat, head: string)
    ensures m.children == [] ==> Render(Collapse(m), k, head) == [HeaderLine(Collapse(m), k, head)]
    ensures m.children != [] ==>
              Render(Collapse(m), k, head) ==
              [HeaderLine(Collapse(m), k, head)] + RenderBlocks(ShownAll(Entries(m)), k + 1) + [Spaces(k) + ")"]
  {
    BlocksAreShown(m);
    SomethingIsShown(m);
    hide RenderBlocks;
  }

  lemma NothingShown(k: nat)
    ensures RenderBlocks(ShownAll([]), k) == []
  {
  }

  method FormatGroups(groups: seq<Group>, indent: nat, ghost bound: nat) returns (lines: seq<string>)
    requires forall g <- groups :: g.members != [] && Size(g.members[0].module_) <= bound
    ensures lines == RenderBlocks(ShownAll(GroupEntries(groups)), indent)
    decreases bound, 2
  {
    ghost var es := GroupEntries(groups);
    NothingShown(indent);
    lines := [];
    hide Render, RenderBlocks, Collapse, Head, ShownAll, Size, Shown;
    for i := 0 to |groups|
      invariant lines == RenderBlocks(ShownAll(es[..i]), indent)
    {
      assert groups[i] in groups;
      var block := FormatGroup(groups[i], indent);
      GroupBlock(groups[i], indent);
      lines := lines + block;
      ShowOneMore(es, i, indent);
    }
    assert es[..|groups|] == es;
  }

  lemma GroupBlock(g: Group, k: nat)
    requires g.members != []
    ensures Render(Shown(GroupEntry(g)).view, k, Head(IndexText(g), |g.members|)) ==
            Render(Collapse(GroupEntry(g).module_), k, Head(GroupEntry(g).title, GroupEntry(g).count))
  {
    hide Render, Collapse;
  }

  method FormatNamed(named: seq<Child>, indent: nat, ghost bound: nat) returns (lines: seq<string>)
    requires forall c <- named :: Size(c.module_) <= bound
    ensures lines == RenderBlocks(ShownAll(NamedEntries(named)), indent)
    decreases bound, 2
  {
    ghost var es := NamedEntries(named);
    NothingShown(indent);
    lines := [];
    hide Render, RenderBlocks, Collapse, Head, ShownAll, Size;
    for i := 0 to |named|
      invariant lines == RenderBlocks(ShownAll(es[..i]), indent)
    {
      assert named[i] in named;
      var block := FormatModuleTree(named[i].module_, named[i].name, indent);
      lines := lines + block;
      ShowOneMore(es, i, indent);
    }
    assert es[..|named|] == es;
  }

  method FormatModuleTree(m: Module, name: string, indent: nat) returns (lines: seq<string>)
    ensures lines == Render(Collapse(m), indent, Head(name, 1))
    decreases Size(m), 0
  {
    hide *;
    RenderedParts(m, indent, Head(name, 1));
    var header := FormatHeader(m, name, indent);
    lines := [header];
    if m.children != [] {
      var numbered, named := SeparateChildren(m.children);
      var groups := GroupBySignature(numbered);
      groups := SortGroups(groups);
      PartsAreSmaller(m);
      ShownInTurn(m, indent + 1);
      var groupLines := FormatGroups(groups, indent + 1, Size(m) - 1);
      var namedLines := FormatNamed(named, indent + 1, Size(m) - 1);
      lines := lines + groupLines + namedLines + [Spaces(indent) + ")"];
    }
  }

  lemma ShownInTurn(m: Module, k: nat)
    requires forall g <- GroupsOf(m) :: g.members != []
    ensures GroupsOf(m) == SortGroups(GroupUp(Numbered(m.children)))
    ensures RenderBlocks(ShownAll(Entries(m)), k) ==
            RenderBlocks(ShownAll(GroupEntries(GroupsOf(m))), k) +
                RenderBlocks(ShownAll(NamedEntries(Named(m.children))), k)
  {
    var es, fs := GroupEntries(GroupsOf(m)), NamedEntries(Named(m.children));
    assert ShownAll(es + fs) == ShownAll(es) + ShownAll(fs) by { hide Shown, GroupEntries, NamedEntries; }
    RenderBlocksConcat(ShownAll(es), ShownAll(fs), k);
  }

  lemma ShowOneMore(es: seq<Entry>, i: nat, k: nat)
    requires i < |es|
    ensures RenderBlocks(ShownAll(es[..i + 1]), k) ==
              RenderBlocks(ShownAll(es[..i]), k) + Render(Collapse(es[i].module_), k, Head(es[i].title, es[i].count))
  {
    hide RenderBlocks, Render, Collapse;
    RenderBlocksAppend(ShownAll(es[..i]), Shown(es[i]), k);
    assert ShownAll(es[..i + 1]) == ShownAll(es[..i]) + [Shown(es[i])];
  }

  lemma {:induction false} StripSpaces(n: nat, s: string)
    ensures Strip(seq(n, _ => ' ') + s) == Strip(s)
    decreases n
  {
    var lead := seq(n, _ => ' ');
    if n == 0 {
      assert lead + s == s;
    } else {
      StripSpaces(n - 1, s);
      assert (lead + s)[1..] == seq(n - 1, _ => ' ') + s;
    }
  }

  lemma {:induction false} StripThenBracket(s: string)
    ensures Strip(s + "(") == Strip(s) + "("
    decreases |s|
  {
    if s != "" && IsSpace(s[0]) {
      StripThenBracket(s[1..]);
      assert (s + "(")[1..] == s[1..] + "(";
    } else {
      assert s == "" ==> s + "(" == "(";
    }
  }

  lemma HeaderStripped(v: View, k: nat)
    ensures Strip(HeaderLine(v, k, "")) == Strip(v.info) + if v.blocks == [] then "" else "("
  {
    var tail := if v.blocks == [] then "" else "(";
    assert HeaderLine(v, k, "") == Spaces(k) + (v.info + tail);
    StripSpaces(2 * k, v.info + tail);
    StripThenBracket(v.info);
    assert v.info + "" == v.info;
  }

  lemma IndexTextOfOne(g: Group)
    requires g.members != []
    ensures IndexText(g) != ""
    ensures |g.members| == 1 ==> IndexText(g) == IntText(g.members[0].idx)
  {
    var sorted := Sort(Indices(g.members));
    SortKeepsSize(Indices(g.members));
    RunsOfSorted(sorted);
    assert |g.members| == 1 ==> Indices(g.members) == [g.members[0].idx];
  }
}
