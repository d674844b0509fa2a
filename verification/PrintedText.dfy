/** What the printed lines of a module tree look like, and the texts of a small one
    (overlay/vllm/model_inspection.py). */
module PrintedText {
  import opened Wrappers
  import opened Integers
  import opened Text
  import opened ModelInspection
  import opened ModelText
  import opened ModelPrinter
  import opened ModelPrinterCorrect

  // ---------------------------------------------------------------------------------------
  // Lines
  // ---------------------------------------------------------------------------------------

  /** The first line of a module is indented by two blanks a level and holds its name and info; a module with children
      opens a bracket there and closes it in the last line, which is indented alike. */
  lemma TreeSays(m: Module, name: string, k: nat)
    ensures
      var lines := Render(Collapse(m), k, Head(name, 1));
      && lines != []
      && lines[0] == Spaces(k) + (if name == "" then "" else "(" + name + "): ") + m.info
                     + (if m.children == [] then "" else "(")
      && (if m.children == [] then |lines| == 1 else |lines| > 2 && lines[|lines| - 1] == Spaces(k) + ")")
  {
    var v := Collapse(m);
    BlocksAreShown(m);
    SomethingIsShown(m);
    CollapseInfo(m);
    OnlyTitle(name);
    RenderedParts(m, k, Head(name, 1));
    var head := Head(name, 1);
    hide Collapse, Render, RenderBlocks, Head, Spaces, Entries, Numeral;
    if m.children != [] { BlocksRendered(ShownAll(Entries(m)), k + 1); }
    assert HeaderLine(v, k, head) == Spaces(k) + head + m.info + (if m.children == [] then "" else "(");
  }

  lemma BlocksRendered(bs: seq<Block>, k: nat)
    requires bs != []
    ensures RenderBlocks(bs, k) != []
  {
    RenderedNotEmpty(bs[0].view, k, Head(bs[0].title, bs[0].count));
    hide Render, Head;
  }

  lemma OnlyTitle(title: string)
    ensures Head(title, 1) == if title == "" then "" else "(" + title + "): "
  {
    if title != "" { assert "(" + title + "): " + "" == "(" + title + "): "; }
  }

  lemma RenderedNotEmpty(v: View, k: nat, head: string)
    ensures Render(v, k, head) != []
  {
  }

  /** The lines of a group are those of its first module, without a name; in front of the first one, which is stripped,
      stand the ranges of the numbers and, for several, how many there are. */
  lemma GroupSays(g: Group, k: nat)
    requires g.members != []
    ensures
      var lines := Render(Shown(GroupEntry(g)).view, k, Head(IndexText(g), |g.members|));
      var one := Render(Collapse(g.members[0].module_), k, "");
      && one != [] && lines != [] && lines[1..] == one[1..]
      && lines[0] == Spaces(k) + "(" + RangesText(RangesOf(g)) + "): "
                     + (if |g.members| > 1 then Numeral(|g.members|) + " x " else "") + Strip(one[0])
  {
    var lines := Render(Shown(GroupEntry(g)).view, k, Head(IndexText(g), |g.members|));
    var one := Render(Collapse(g.members[0].module_), k, "");
    GroupLines(g, k);
    IndexTextIsRanges(g);
    IndexTextOfOne(g);
    RenderedNotEmpty(Collapse(g.members[0].module_), k, "");
    assert IndexText(g) == RangesText(RangesOf(g));
    hide *;
    HeadOfGroup(Spaces(k), IndexText(g), |g.members|, Strip(one[0]));
  }

  lemma HeadOfGroup(prefix: string, title: string, count: nat, rest: string)
    requires title != ""
    ensures prefix + Head(title, count) + rest ==
            prefix + "(" + title + "): " + (if count > 1 then Numeral(count) + " x " else "") + rest
  {
    HeadText(prefix, title, count, rest);
    hide Numeral, Head;
    var start := prefix + "(" + title + "): ";
    if count > 1 {
      assert start + (Numeral(count) + " x ") + rest == start + Numeral(count) + " x " + rest;
    } else {
      assert start + "" == start;
    }
  }

  // ---------------------------------------------------------------------------------------
  // Texts
  // ---------------------------------------------------------------------------------------

  lemma DigitsInText()
    ensures IntText(0) == "0" && IntText(1) == "1" && IntText(2) == "2" && IntText(4) == "4" && IntText(6) == "6"
  {
  }

  /** Numbers as `str` writes them. */
  lemma NumbersInText()
    ensures IntText(28) == "28" && IntText(47) == "47" && IntText(-12) == "-12"
  {
    assert Numeral(2) == "2" && Numeral(4) == "4" && Numeral(1) == "1";
  }

  /** The example of `_format_index_ranges`. */
  lemma RangesInText()
    ensures Sort([0, 1, 2, 4, 5, 6]) == [0, 1, 2, 4, 5, 6]
    ensures Runs([0, 1, 2, 4, 5, 6]) == [Range(0, 2), Range(4, 6)]
    ensures RangesText([Range(0, 2), Range(4, 6)]) == "0-2, 4-6"
  {
    SortOfSix();
    RunsOfSix();
    DigitsInText();
    hide IntText, Sort, Runs;
    var texts := RangeTexts([Range(0, 2), Range(4, 6)]);
    assert RangeText(Range(0, 2)) == "0-2" && RangeText(Range(4, 6)) == "4-6";
    assert texts == ["0-2", "4-6"] && texts[1..] == ["4-6"];
  }

  lemma SortOfSix()
    ensures Sort([0, 1, 2, 4, 5, 6]) == [0, 1, 2, 4, 5, 6]
  {
    var xs := [0, 1, 2, 4, 5, 6];
    assert xs[1..] == [1, 2, 4, 5, 6] && xs[2..] == [2, 4, 5, 6] && xs[3..] == [4, 5, 6] && xs[4..] == [5, 6];
    assert Sort([6]) == [6];
    assert Sort([5, 6]) == [5, 6] by { assert [5, 6][1..] == [6]; }
    assert Sort([4, 5, 6]) == [4, 5, 6] by { assert [4, 5, 6][1..] == [5, 6]; }
    assert Sort([2, 4, 5, 6]) == [2, 4, 5, 6] by { assert [2, 4, 5, 6][1..] == [4, 5, 6]; }
    assert Sort([1, 2, 4, 5, 6]) == [1, 2, 4, 5, 6] by { assert [1, 2, 4, 5, 6][1..] == [2, 4, 5, 6]; }
  }

  lemma RunsOfSix()
    ensures Runs([0, 1, 2, 4, 5, 6]) == [Range(0, 2), Range(4, 6)]
  {
    assert [0, 1, 2, 4, 5, 6][1..] == [1, 2, 4, 5, 6] && [1, 2, 4, 5, 6][1..] == [2, 4, 5, 6];
    assert [2, 4, 5, 6][1..] == [4, 5, 6] && [4, 5, 6][1..] == [5, 6] && [5, 6][1..] == [6] && [6][1..] == [];
    assert RunsFrom(4, 6, []) == [Range(4, 6)];
    assert RunsFrom(4, 5, [6]) == [Range(4, 6)];
    assert RunsFrom(4, 4, [5, 6]) == [Range(4, 6)];
    assert RunsFrom(0, 2, [4, 5, 6]) == [Range(0, 2)] + [Range(4, 6)];
    assert RunsFrom(0, 1, [2, 4, 5, 6]) == RunsFrom(0, 2, [4, 5, 6]);
  }

  /** The signature of a module with one child. */
  lemma SignatureInText()
    ensures Signature(Module("Block", [Child("mlp", Module("Mlp", []))])) == ":Block\nmlp:Mlp"
  {
    OneBelow("Block", "mlp", "Mlp");
    assert "" + ":" + "Block" == ":Block" && "mlp" + ":" + "Mlp" == "mlp:Mlp";
    hide *;
    assert ":Block" + "\n" + "mlp:Mlp" == ":Block\nmlp:Mlp";
  }

  lemma OneBelow(info: string, name: string, below: string)
    requires name != ""
    ensures Signature(Module(info, [Child(name, Module(below, []))])) ==
            ("" + ":" + info) + "\n" + (name + ":" + below)
  {
    var child := Module(below, []);
    var cs := [Child(name, child)];
    assert cs[1..] == [] && Path("", name) == name by { assert "" + name == name; }
    assert Visits(child, name) == [Visit(name, below)];
    assert ChildVisits(cs, "") == [Visit(name, below)];
    var visits := [Visit("", info), Visit(name, below)];
    assert Visits(Module(info, cs), "") == visits;
    hide Visits, ChildVisits, Path;
    assert Lines(visits) == ["" + ":" + info, name + ":" + below];
    JoinOfTwo("" + ":" + info, name + ":" + below, "\n");
  }

  lemma JoinOfTwo(a: string, b: string, sep: string)
    ensures Join([a, b], sep) == a + sep + b
  {
    assert [a, b][1..] == [b];
    assert Join([b], sep) == b;
  }

  /** `int` on names. */
  lemma NumbersAreRead()
    ensures ReadInt("0") == Some(0) && ReadInt("1") == Some(1)
  {
    assert DigitOf('0') == 0 && DigitOf('1') == 1;
    hide ReadInt;
    DigitIsRead('0');
    DigitIsRead('1');
  }

  lemma DigitIsRead(c: char)
    requires IsDigit(c)
    ensures ReadInt([c]) == Some(DigitOf(c))
  {
    var s := [c];
    DigitIsPlain(c);
    hide IsDigit, DigitOf;
    assert TrimRight(s) == s && TrimLeft(s) == s;
    assert s[..0] == "" && WithoutUnderscores("") == "" && "" + [c] == s;
    assert WithoutUnderscores(s) == s;
    assert Value("") == 0;
    assert Value(s) == DigitOf(c);
    assert AreDigits(s);
    hide TrimLeft, TrimRight, WithoutUnderscores, Value, AreDigits;
  }

  /** A word is no number. */
  lemma WordsAreNotRead(s: string)
    requires s != "" && s[0] != '_' && forall i | 0 <= i < |s| :: IsLetter(s[i])
    ensures ReadInt(s) == None
  {
    assert TrimRight(s) == s && TrimLeft(s) == s;
    assert !IsDigit(s[0]) && s[0] != '_' && s[0] != '-' && s[0] != '+';
  }

  /** A module with two equal children numbered 0 and 1 and a named one. */
  ghost predicate IsPair(m: Module, a: string, b: string, c: string, x: Module, y: Module) {
    && m.children == [Child(a, x), Child(b, x), Child(c, y)]
    && ReadInt(a) == Some(0) && ReadInt(b) == Some(1) && ReadInt(c) == None && c != ""
    && x.children == [] && y.children == [] && Strip(x.info) == x.info
  }

  lemma PairChildren(m: Module, a: string, b: string, c: string, x: Module, y: Module)
    requires IsPair(m, a, b, c, x, y)
    ensures Numbered(m.children) == [Member(0, x), Member(1, x)] && Named(m.children) == [Child(c, y)]
  {
    hide ReadInt, Strip;
    var p, q, r := Child(a, x), Child(b, x), Child(c, y);
    assert [p, q, r][..2] == [p, q] && [p, q][..1] == [p] && [p][..0] == [];
    assert Numbered([]) == [] && Named([]) == [];
    assert Numbered([p]) == [Member(0, x)] && Named([p]) == [];
    assert Numbered([p, q]) == [Member(0, x), Member(1, x)] && Named([p, q]) == [];
  }

  lemma PairGroups(m: Module, x: Module)
    requires Numbered(m.children) == [Member(0, x), Member(1, x)]
    ensures GroupsOf(m) == [Group(Signature(x), [Member(0, x), Member(1, x)])]
  {
    var p, q, s := Member(0, x), Member(1, x), Signature(x);
    hide Numbered, Signature;
    assert [p, q][..1] == [p] && [p][..0] == [];
    assert GroupUp([]) == [];
    assert GroupUp([p]) == [Group(s, [p])];
    assert GroupUp([p, q]) == AddTo([Group(s, [p])], s, q);
    assert [p] + [q] == [p, q];
    assert GroupUp([p, q]) == [Group(s, [p, q])];
    hide GroupUp;
    assert [Group(s, [p, q])][1..] == [];
    assert SortGroups([]) == [];
    assert SortGroups([Group(s, [p, q])]) == [Group(s, [p, q])];
  }

  lemma PairEntry(g: Group, x: Module)
    requires g.members == [Member(0, x), Member(1, x)] && Strip(x.info) == x.info
    ensures GroupEntry(g) == Entry("0-1", 2, x)
  {
    DigitsInText();
    hide Strip, IntText;
    assert Indices(g.members) == [0, 1];
    assert Sort([1]) == [1] && [0, 1][1..] == [1];
    assert Sort([0, 1]) == [0, 1];
    hide Sort, Indices;
    assert [1][1..] == [] && RunsFrom(0, 1, []) == [Range(0, 1)];
    assert Runs([0, 1]) == [Range(0, 1)];
    hide Runs, RunsFrom;
    assert RangeText(Range(0, 1)) == "0-1";
    assert RangeTexts([Range(0, 1)]) == ["0-1"];
    hide RangeTexts, RangeText;
    assert IndexText(g) == "0-1";
  }

  lemma LeafInText(m: Module, k: nat, head: string)
    requires m.children == []
    ensures Render(Collapse(m), k, head) == [Spaces(k) + head + m.info]
  {
    RenderedParts(m, k, head);
    BlocksAreShown(m);
    assert Numbered([]) == [] && Named([]) == [] && GroupsOf(m) == [] && Entries(m) == [];
    CollapseInfo(m);
    hide Collapse;
    assert Spaces(k) + head + m.info + "" == Spaces(k) + head + m.info;
  }

  lemma PairEntries(m: Module, a: string, b: string, c: string, x: Module, y: Module)
    requires IsPair(m, a, b, c, x, y)
    ensures Entries(m) == [Entry("0-1", 2, x), Entry(c, 1, y)] && m.children != []
  {
    assert Strip(x.info) == x.info && m.children != [];
    hide *;
    PairChildren(m, a, b, c, x, y);
    PairGroups(m, x);
    var g := Group(Signature(x), [Member(0, x), Member(1, x)]);
    PairEntry(g, x);
    EntriesAre(m, g, Child(c, y));
  }

  lemma EntriesAre(m: Module, g: Group, d: Child)
    requires GroupsOf(m) == [g] && Named(m.children) == [d] && g.members != []
    ensures Entries(m) == [GroupEntry(g), Entry(d.name, 1, d.module_)]
  {
    hide GroupsOf, Named, GroupEntry;
    assert GroupEntries([g]) == [GroupEntry(g)] && NamedEntries([d]) == [Entry(d.name, 1, d.module_)];
  }

  lemma PairBlocks(m: Module, c: string, x: Module, y: Module)
    requires Entries(m) == [Entry("0-1", 2, x), Entry(c, 1, y)] && m.children != []
    ensures
      Render(Collapse(m), 0, "") ==
      [HeaderLine(Collapse(m), 0, "")]
        + (Render(Collapse(x), 1, Head("0-1", 2)) + Render(Collapse(y), 1, Head(c, 1))) + [Spaces(0) + ")"]
    ensures Collapse(m).blocks != [] && Collapse(m).info == m.info
  {
    hide *;
    var u, v := Block("0-1", 2, Collapse(x)), Block(c, 1, Collapse(y));
    BlocksAreShown(m);
    CollapseInfo(m);
    RenderedParts(m, 0, "");
    ShownTwo(Entry("0-1", 2, x), Entry(c, 1, y));
    BodyLines(u, v);
  }

  lemma ShownTwo(e: Entry, f: Entry)
    ensures ShownAll([e, f]) ==
            [Block(e.title, e.count, Collapse(e.module_)), Block(f.title, f.count, Collapse(f.module_))]
  {
    hide Collapse;
  }

  lemma HeaderInText(v: View)
    requires v.blocks != []
    ensures HeaderLine(v, 0, "") == v.info + "("
  {
    assert Spaces(0) == "";
    assert "" + "" + v.info + "(" == v.info + "(";
  }

  lemma BodyLines(u: Block, v: Block)
    ensures RenderBlocks([u, v], 1) ==
            Render(u.view, 1, Head(u.title, u.count)) + Render(v.view, 1, Head(v.title, v.count))
  {
    RenderBlocksCons(u, [v], 1);
    RenderBlocksCons(v, [], 1);
    NothingRendered(1);
    hide RenderBlocks, Render, Head;
    assert [u] + [v] == [u, v] && [v] + [] == [v];
    var last := Render(v.view, 1, Head(v.title, v.count));
    assert last + [] == last;
  }

  lemma FirstInText(x: Module)
    requires x.children == []
    ensures Render(Collapse(x), 1, Head("0-1", 2)) == ["  (0-1): 2 x " + x.info]
  {
    hide *;
    LeafInText(x, 1, Head("0-1", 2));
    TwoInText();
    assert Spaces(1) + Head("0-1", 2) == "  (0-1): 2 x ";
  }

  lemma TwoInText()
    ensures Spaces(1) + Head("0-1", 2) == "  (0-1): 2 x "
  {
    assert Numeral(2) == "2";
    assert Spaces(1) == "  ";
    hide Numeral, Spaces;
    assert "(" + "0-1" + "): " + ("2" + " x ") == "(0-1): 2 x ";
    assert "  " + "(0-1): 2 x " == "  (0-1): 2 x ";
  }

  lemma SecondInText(c: string, y: Module)
    requires y.children == [] && c != ""
    ensures Render(Collapse(y), 1, Head(c, 1)) == ["  (" + c + "): " + y.info]
  {
    LeafInText(y, 1, Head(c, 1));
    OnlyTitle(c);
    assert Spaces(1) == "  ";
    hide *;
    assert "  " + ("(" + c + "): ") == "  (" + c + "): ";
  }

  /** Its text, line by line. */
  lemma PairInText(m: Module, a: string, b: string, c: string, x: Module, y: Module)
    requires IsPair(m, a, b, c, x, y)
    ensures Render(Collapse(m), 0, Head("", 1)) ==
            [m.info + "(", "  (0-1): 2 x " + x.info, "  (" + c + "): " + y.info, ")"]
  {
    assert x.children == [] && y.children == [] && c != "";
    hide *;
    PairEntries(m, a, b, c, x, y);
    PairBlocks(m, c, x, y);
    HeaderInText(Collapse(m));
    FirstInText(x);
    SecondInText(c, y);
    EndsInText();
    InARow(m.info + "(", "  (0-1): 2 x " + x.info, "  (" + c + "): " + y.info, ")");
  }

  lemma InARow<T>(a: T, b: T, c: T, d: T)
    ensures [a] + ([b] + [c]) + [d] == [a, b, c, d]
  {
  }

  lemma EndsInText()
    ensures Head("", 1) == "" && Spaces(0) + ")" == ")"
  {
    assert Spaces(0) == "" && "" + ")" == ")";
  }

  /** A proper model, and its text. */
  lemma ModelInText()
    ensures
      var layer, norm := Module("Layer", []), Module("Norm", []);
      var model := Module("Model", [Child("0", layer), Child("1", layer), Child("norm", norm)]);
      && Proper(model)
      && Render(Collapse(model), 0, Head("", 1)) == ["Model(", "  (0-1): 2 x Layer", "  (norm): Norm", ")"]
  {
    var layer, norm := Module("Layer", []), Module("Norm", []);
    var model := Module("Model", [Child("0", layer), Child("1", layer), Child("norm", norm)]);
    hide *;
    ModelIsPair(model, layer, norm);
    ModelIsProper(model, layer, norm);
    PairInText(model, "0", "1", "norm", layer, norm);
    ModelLines();
  }

  lemma ModelLines()
    ensures "Model" + "(" == "Model("
    ensures "  (0-1): 2 x " + "Layer" == "  (0-1): 2 x Layer"
    ensures "  (" + "norm" + "): " + "Norm" == "  (norm): Norm"
  {
  }

  lemma ModelIsPair(m: Module, x: Module, y: Module)
    requires m.children == [Child("0", x), Child("1", x), Child("norm", y)]
    requires x == Module("Layer", []) && y.children == []
    ensures IsPair(m, "0", "1", "norm", x, y)
  {
    hide ReadInt, Strip;
    NumbersAreRead();
    NormIsNotRead();
    LayerIsStripped();
  }

  lemma NormIsNotRead()
    ensures ReadInt("norm") == None
  {
    hide ReadInt;
    WordsAreNotRead("norm");
  }

  lemma LayerIsStripped()
    ensures Strip("Layer") == "Layer"
  {
  }

  lemma ModelIsProper(m: Module, x: Module, y: Module)
    requires m == Module("Model", [Child("0", x), Child("1", x), Child("norm", y)])
    requires x == Module("Layer", []) && y == Module("Norm", [])
    ensures Proper(m)
  {
    assert Free("Model", '\n') && Free("Layer", '\n') && Free("Norm", '\n');
    assert CleanName("0") && CleanName("1") && CleanName("norm");
    hide CleanName, Free;
    LeafIsProper(x);
    LeafIsProper(y);
    assert "0"[0] != "1"[0] && |"norm"| == 4;
  }

  lemma LeafIsProper(m: Module)
    requires m.children == [] && m.info != "" && IsLetter(m.info[0]) && Free(m.info, '\n')
    ensures Proper(m)
  {
  }
}
