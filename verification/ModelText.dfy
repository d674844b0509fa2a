/** The layout of a printed module tree, and the proof that the lines determine what was laid out. */
module ModelText {
  import opened Text

  /** A collapsed tree: under each node, blocks with the text in their brackets and how many modules they stand for. */
  datatype View = View(info: string, blocks: seq<Block>)

  datatype Block = Block(title: string, count: nat, view: View)

  function Spaces(k: nat): (s: string)
    ensures |s| == 2 * k && forall i | 0 <= i < |s| :: s[i] == ' '
  {
    seq(2 * k, _ => ' ')
  }

  function Head(title: string, count: nat): string {
    if title == "" then "" else "(" + title + "): " + if count > 1 then Numeral(count) + " x " else ""
  }

  function HeaderLine(v: View, k: nat, head: string): string {
    Spaces(k) + head + v.info + if v.blocks == [] then "" else "("
  }

  function Render(v: View, k: nat, head: string): seq<string>
    decreases v
  {
    [HeaderLine(v, k, head)] + if v.blocks == [] then [] else RenderBlocks(v.blocks, k + 1) + [Spaces(k) + ")"]
  }

  function RenderBlocks(bs: seq<Block>, k: nat): seq<string>
    decreases bs
  {
    if bs == [] then [] else Render(bs[0].view, k, Head(bs[0].title, bs[0].count)) + RenderBlocks(bs[1..], k)
  }

  lemma RenderBlocksCons(b: Block, bs: seq<Block>, k: nat)
    ensures RenderBlocks([b] + bs, k) == Render(b.view, k, Head(b.title, b.count)) + RenderBlocks(bs, k)
  {
    hide Render;
    assert ([b] + bs)[1..] == bs;
  }

  lemma NothingRendered(k: nat)
    ensures RenderBlocks([], k) == []
  {
  }

  lemma {:induction false} RenderBlocksConcat(bs: seq<Block>, cs: seq<Block>, k: nat)
    ensures RenderBlocks(bs + cs, k) == RenderBlocks(bs, k) + RenderBlocks(cs, k)
    decreases |bs|
  {
    hide *;
    if bs == [] {
      NothingRendered(k);
      assert [] + cs == cs;
      assert [] + RenderBlocks(cs, k) == RenderBlocks(cs, k);
    } else {
      RenderBlocksConcat(bs[1..], cs, k);
      RenderBlocksCons(bs[0], bs[1..], k);
      RenderBlocksCons(bs[0], bs[1..] + cs, k);
      assert [bs[0]] + bs[1..] == bs && [bs[0]] + (bs[1..] + cs) == bs + cs;
      Associative(Render(bs[0].view, k, Head(bs[0].title, bs[0].count)), RenderBlocks(bs[1..], k), RenderBlocks(cs, k));
    }
  }

  lemma RenderBlocksAppend(bs: seq<Block>, b: Block, k: nat)
    ensures RenderBlocks(bs + [b], k) == RenderBlocks(bs, k) + Render(b.view, k, Head(b.title, b.count))
  {
    hide *;
    RenderBlocksConcat(bs, [b], k);
    RenderBlocksCons(b, [], k);
    NothingRendered(k);
    assert [b] + [] == [b];
    assert Render(b.view, k, Head(b.title, b.count)) + [] == Render(b.view, k, Head(b.title, b.count));
  }

  // ---------------------------------------------------------------------------------------
  // Which line starts a block
  // ---------------------------------------------------------------------------------------

  predicate Indented(line: string, k: nat) { Spaces(k) <= line }

  predicate Starts(line: string, k: nat) { |line| > 2 * k && line[2 * k] == '(' }

  ghost predicate AllIndented(lines: seq<string>, k: nat) { forall i | 0 <= i < |lines| :: Indented(lines[i], k) }

  ghost predicate NoneStarts(lines: seq<string>, k: nat) { forall i | 0 <= i < |lines| :: !Starts(lines[i], k) }

  lemma {:induction false} RenderIndented(v: View, k: nat, head: string)
    ensures AllIndented(Render(v, k, head), k)
    decreases v
  {
    if v.blocks != [] {
      RenderBlocksIndented(v.blocks, k + 1);
      var lines := RenderBlocks(v.blocks, k + 1);
      forall i | 0 <= i < |lines| ensures Indented(lines[i], k) { Deeper(lines[i], k); }
    }
  }

  lemma {:induction false} RenderBlocksIndented(bs: seq<Block>, k: nat)
    ensures AllIndented(RenderBlocks(bs, k), k)
    decreases bs
  {
    if bs != [] {
      RenderIndented(bs[0].view, k, Head(bs[0].title, bs[0].count));
      RenderBlocksIndented(bs[1..], k);
    }
  }

  lemma Deeper(line: string, k: nat)
    requires Indented(line, k + 1)
    ensures Indented(line, k) && !Starts(line, k)
  {
    assert line[..2 * k + 2] == Spaces(k + 1);
    assert line[..2 * k] == Spaces(k);
    assert line[2 * k] == ' ';
  }

  lemma TailStartsNone(v: View, k: nat, head: string)
    ensures NoneStarts(Render(v, k, head)[1..], k)
  {
    if v.blocks != [] {
      RenderBlocksIndented(v.blocks, k + 1);
      var lines := RenderBlocks(v.blocks, k + 1);
      forall i | 0 <= i < |lines| ensures !Starts(lines[i], k) { Deeper(lines[i], k); }
      assert Render(v, k, head)[1..] == lines + [Spaces(k) + ")"];
    }
  }

  lemma HeaderStarts(b: Block, k: nat)
    requires b.title != ""
    ensures Starts(HeaderLine(b.view, k, Head(b.title, b.count)), k)
  {
  }

  /** Lists that start once and go on with a list that is empty or starts again split in one way only. */
  lemma SameBlocks(a: seq<string>, rest: seq<string>, b: seq<string>, more: seq<string>, k: nat)
    requires a != [] && b != [] && a + rest == b + more
    requires NoneStarts(a[1..], k) && NoneStarts(b[1..], k)
    requires (rest != [] ==> Starts(rest[0], k)) && (more != [] ==> Starts(more[0], k))
    ensures a == b && rest == more
  {
    if |a| < |b| {
      NextStartsNot(a, rest, b, more, k);
    } else if |b| < |a| {
      NextStartsNot(b, more, a, rest, k);
    } else {
      var w := a + rest;
      assert w == b + more;
      assert w[..|a|] == a && w[..|a|] == b && w[|a|..] == rest && w[|a|..] == more;
    }
  }

  lemma NextStartsNot(a: seq<string>, rest: seq<string>, b: seq<string>, more: seq<string>, k: nat)
    requires a + rest == b + more && 0 < |a| < |b| && NoneStarts(b[1..], k)
    ensures rest != [] && !Starts(rest[0], k)
  {
    var w := b + more;
    assert w == a + rest;
    assert w[|a|] == b[|a|] && w[|a|] == rest[0] && b[|a|] == b[1..][|a| - 1];
  }

  // ---------------------------------------------------------------------------------------
  // The lines determine the view
  // ---------------------------------------------------------------------------------------

  predicate IsLetter(c: char) { 'a' <= c <= 'z' || 'A' <= c <= 'Z' || c == '_' }

  /** What the printed names give: an info starts like an identifier, a title holds no colon, and
      nothing holds a line break. */
  ghost predicate Legible(v: View)
    decreases v
  {
    && v.info != [] && IsLetter(v.info[0]) && Free(v.info, '\n')
    && forall i | 0 <= i < |v.blocks| :: LegibleBlock(v.blocks[i])
  }

  ghost predicate LegibleBlock(b: Block)
    decreases b
  {
    b.title != "" && Free(b.title, ':') && Free(b.title, '\n') && b.count > 0 && Legible(b.view)
  }

  ghost predicate LegibleBlocks(bs: seq<Block>) { forall i | 0 <= i < |bs| :: LegibleBlock(bs[i]) }

  lemma HeaderDetermines(a: Block, b: Block, k: nat)
    requires LegibleBlock(a) && LegibleBlock(b) && (a.view.blocks == [] <==> b.view.blocks == [])
    requires HeaderLine(a.view, k, Head(a.title, a.count)) == HeaderLine(b.view, k, Head(b.title, b.count))
    ensures a.title == b.title && a.count == b.count && a.view.info == b.view.info
  {
    var tail := Opening(a.view);
    var ra, rb := CountText(a.count) + a.view.info, CountText(b.count) + b.view.info;
    HeaderParts(a, k);
    HeaderParts(b, k);
    var lead := Spaces(k) + "(";
    assert (lead + (a.title + ")" + [':'] + (" " + ra + tail)))[|lead|..] == a.title + ")" + [':'] + (" " + ra + tail);
    assert (lead + (b.title + ")" + [':'] + (" " + rb + tail)))[|lead|..] == b.title + ")" + [':'] + (" " + rb + tail);
    CutAt(a.title + ")", " " + ra + tail, b.title + ")", " " + rb + tail, ':');
    assert (a.title + ")")[..|a.title|] == a.title && (b.title + ")")[..|b.title|] == b.title;
    assert (" " + ra + tail)[1..|ra| + 1] == ra && (" " + rb + tail)[1..|rb| + 1] == rb;
    CountDetermines(a.count, a.view.info, b.count, b.view.info);
  }

  function CountText(count: nat): string { if count > 1 then Numeral(count) + " x " else "" }

  lemma HeaderParts(b: Block, k: nat)
    requires b.title != ""
    ensures HeaderLine(b.view, k, Head(b.title, b.count)) ==
              (Spaces(k) + "(") + (b.title + ")" + [':'] + (" " + (CountText(b.count) + b.view.info) + Opening(b.view)))
  {
    var spaces, count, tail := Spaces(k), CountText(b.count), Opening(b.view);
    HeadIs(b.title, b.count);
    hide *;
    HeaderLineIs(b.view, k, Head(b.title, b.count));
    Regroup(spaces, b.title, count, b.view.info, tail);
  }

  function Opening(v: View): string { if v.blocks == [] then "" else "(" }

  lemma HeadIs(title: string, count: nat)
    requires title != ""
    ensures Head(title, count) == "(" + title + "): " + CountText(count)
  {
    hide Numeral;
  }

  lemma HeaderLineIs(v: View, k: nat, head: string)
    ensures HeaderLine(v, k, head) == Spaces(k) + head + v.info + Opening(v)
  {
    hide Spaces;
  }

  lemma Regroup(a: string, title: string, count: string, info: string, tail: string)
    ensures a + ("(" + title + "): " + count) + info + tail ==
              (a + "(") + (title + ")" + [':'] + (" " + (count + info) + tail))
  {
    var l := a + ("(" + title + "): " + count) + info + tail;
    var r := (a + "(") + (title + ")" + [':'] + (" " + (count + info) + tail));
    assert |l| == |r|;
    assert "): " == ")" + [':'] + " ";
    assert forall i | 0 <= i < |l| :: l[i] == r[i];
  }

  lemma StartOfCount(n: nat, s: string)
    requires n > 0 && s != [] && IsLetter(s[0])
    ensures CountText(n) + s != [] && (n > 1 <==> IsDigit((CountText(n) + s)[0]))
    ensures n == 1 ==> CountText(n) + s == s
  {
    assert n > 1 ==> (CountText(n) + s)[0] == Numeral(n)[0];
  }

  lemma CountDetermines(n: nat, s: string, m: nat, t: string)
    requires n > 0 && m > 0 && s != [] && t != [] && IsLetter(s[0]) && IsLetter(t[0])
    requires CountText(n) + s == CountText(m) + t
    ensures n == m && s == t
  {
    StartOfCount(n, s);
    StartOfCount(m, t);
    if n > 1 { CountsDetermine(n, s, m, t); }
  }

  lemma CountsDetermine(n: nat, s: string, m: nat, t: string)
    requires n > 1 && m > 1 && CountText(n) + s == CountText(m) + t
    ensures n == m && s == t
  {
    var a, b, rs, rt := Numeral(n), Numeral(m), "x " + s, "x " + t;
    NumeralFree(n, ' ');
    NumeralFree(m, ' ');
    CountParts(n, s);
    CountParts(m, t);
    assert rs[2..] == s && rt[2..] == t;
    hide Numeral;
    CutAt(a, rs, b, rt, ' ');
    NumeralInjective(n, m);
  }

  lemma CountParts(n: nat, s: string)
    requires n > 1
    ensures CountText(n) + s == Numeral(n) + [' '] + ("x " + s)
  {
    hide Numeral;
  }

  /** Two collapsed trees printed alike are the same collapsed tree. */
  lemma {:induction false} LinesDetermine(v: View, w: View, k: nat, head: string)
    requires Legible(v) && Legible(w) && Render(v, k, head) == Render(w, k, head)
    ensures v == w
    decreases v, 0
  {
    OneLine(v, k, head);
    OneLine(w, k, head);
    HeaderInfo(v, w, k, head);
    hide Render, HeaderLine;
    if v.blocks != [] {
      BodyOf(v, k, head);
      BodyOf(w, k, head);
      BlockLinesDetermine(v.blocks, w.blocks, k + 1);
    }
  }

  lemma HeaderInfo(v: View, w: View, k: nat, head: string)
    requires HeaderLine(v, k, head) == HeaderLine(w, k, head) && (v.blocks == [] <==> w.blocks == [])
    ensures v.info == w.info
  {
    var pre, tail := Spaces(k) + head, if v.blocks == [] then "" else "(";
    var line := HeaderLine(v, k, head);
    assert line == pre + v.info + tail && line == pre + w.info + tail;
    assert line[|pre|..|line| - |tail|] == v.info && line[|pre|..|line| - |tail|] == w.info;
  }

  lemma BodyOf(v: View, k: nat, head: string)
    requires v.blocks != []
    ensures |Render(v, k, head)| > 1 && Render(v, k, head)[1..|Render(v, k, head)| - 1] == RenderBlocks(v.blocks, k + 1)
  {
    var body, first, last := RenderBlocks(v.blocks, k + 1), HeaderLine(v, k, head), Spaces(k) + ")";
    assert Render(v, k, head) == [first] + (body + [last]) by { hide RenderBlocks, HeaderLine, Spaces; }
    hide *;
    Enclosed(first, body, last);
  }

  lemma Enclosed<T>(first: T, body: seq<T>, last: T)
    ensures var s := [first] + (body + [last]); |s| == |body| + 2 && s[1..|s| - 1] == body
  {
  }

  lemma {:induction false} BlockLinesDetermine(bs: seq<Block>, cs: seq<Block>, k: nat)
    requires LegibleBlocks(bs) && LegibleBlocks(cs) && RenderBlocks(bs, k) == RenderBlocks(cs, k)
    ensures bs == cs
    decreases bs, 1
  {
    if bs != [] && cs != [] {
      FirstOfBlocks(bs, k);
      FirstOfBlocks(cs, k);
      var b, c := bs[0], cs[0];
      hide *;
      SameBlocks(Render(b.view, k, Head(b.title, b.count)), RenderBlocks(bs[1..], k),
                 Render(c.view, k, Head(c.title, c.count)), RenderBlocks(cs[1..], k), k);
      OneLine(b.view, k, Head(b.title, b.count));
      OneLine(c.view, k, Head(c.title, c.count));
      HeaderDetermines(b, c, k);
      LinesDetermine(b.view, c.view, k, Head(b.title, b.count));
      BlockLinesDetermine(bs[1..], cs[1..], k);
      assert bs == [b] + bs[1..] && cs == [c] + cs[1..];
    } else {
      SomethingRendered(bs, k);
      SomethingRendered(cs, k);
    }
  }

  lemma SomethingRendered(bs: seq<Block>, k: nat)
    ensures RenderBlocks(bs, k) == [] <==> bs == []
  {
    if bs != [] { OneLine(bs[0].view, k, Head(bs[0].title, bs[0].count)); }
    hide Render;
  }

  /** The lines of a list of blocks: those of the first one, and then a list that starts again or is empty. */
  lemma FirstOfBlocks(bs: seq<Block>, k: nat)
    requires LegibleBlocks(bs) && bs != []
    ensures LegibleBlock(bs[0]) && Legible(bs[0].view) && LegibleBlocks(bs[1..])
    ensures
      var lines, rest := Render(bs[0].view, k, Head(bs[0].title, bs[0].count)), RenderBlocks(bs[1..], k);
      && RenderBlocks(bs, k) == lines + rest && lines != [] && NoneStarts(lines[1..], k)
      && (rest != [] ==> Starts(rest[0], k))
  {
    OneLine(bs[0].view, k, Head(bs[0].title, bs[0].count));
    TailStartsNone(bs[0].view, k, Head(bs[0].title, bs[0].count));
    FirstStarts(bs[1..], k);
    hide Render, NoneStarts, Starts, Head, Legible;
    assert Legible(bs[0].view) by { BlockView(bs[0]); }
  }

  lemma BlockView(b: Block)
    requires LegibleBlock(b)
    ensures Legible(b.view)
  {
  }

  lemma OneLine(v: View, k: nat, head: string)
    ensures |Render(v, k, head)| == 1 <==> v.blocks == []
    ensures Render(v, k, head) != [] && Render(v, k, head)[0] == HeaderLine(v, k, head)
  {
  }

  lemma FirstStarts(bs: seq<Block>, k: nat)
    requires LegibleBlocks(bs)
    ensures RenderBlocks(bs, k) != [] ==> Starts(RenderBlocks(bs, k)[0], k)
  {
    if bs != [] { HeaderStarts(bs[0], k); }
  }

  // ---------------------------------------------------------------------------------------
  // No line holds a line break
  // ---------------------------------------------------------------------------------------

  ghost predicate OneLiners(lines: seq<string>) { forall i | 0 <= i < |lines| :: Free(lines[i], '\n') }

  lemma {:induction false} RenderOneLiners(v: View, k: nat, head: string)
    requires Legible(v) && Free(head, '\n')
    ensures OneLiners(Render(v, k, head))
    decreases v
  {
    if v.blocks != [] { RenderBlocksOneLiners(v.blocks, k + 1); }
  }

  lemma {:induction false} RenderBlocksOneLiners(bs: seq<Block>, k: nat)
    requires LegibleBlocks(bs)
    ensures OneLiners(RenderBlocks(bs, k))
    decreases bs
  {
    if bs != [] {
      NumeralFree(bs[0].count, '\n');
      RenderOneLiners(bs[0].view, k, Head(bs[0].title, bs[0].count));
      RenderBlocksOneLiners(bs[1..], k);
    }
  }
}
