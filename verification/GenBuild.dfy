/** The generator, page by page and paragraph by paragraph (internal/docgen/docgen.go:186-330). */
module GenBuild {
  import opened Sections
  import opened Forest
  import opened Lead
  import opened Renumber
  import opened Incremental
  import opened TextUnits
  import opened SpanSets
  import opened Generate
  import opened GenJoin
  import opened GenRuns
  import opened GenProper
  import opened GenParts
  import opened GenTable

  /** Joins spans while only a separator lies between two. */
  method JoinRuns(spans: seq<Span>, sep: nat) returns (out: seq<Span>)
    ensures out == Runs(spans, sep)
  {
    hide *;
    RunsNone(sep);
    out := [];
    assert spans[..0] == [];
    for i := 0 to |spans|
      invariant out == Runs(spans[..i], sep)
    {
      var s := spans[i];
      assert spans[..i + 1][..i] == spans[..i];
      RunsLast(spans[..i + 1], sep);
      GrownIs(out, s, sep);
      var n := |out|;
      if n > 0 && End(out[n - 1]) + sep == s.offset {
        LastOf(out, Span(out[n - 1].offset, End(s) - out[n - 1].offset));
        out := out[n - 1 := Span(out[n - 1].offset, End(s) - out[n - 1].offset)];
        continue;
      }
      out := out + [s];
    }
    assert spans[..|spans|] == spans;
  }

  lemma LastOf<T>(s: seq<T>, x: T)
    requires s != []
    ensures s[|s| - 1 := x] == s[..|s| - 1] + [x]
  {}

  /** The first paragraph of this kind. */
  method Find(kinds: seq<Kind>, k: Kind) returns (r: Option<nat>)
    ensures r == First(kinds, k)
  {
    hide First;
    for i := 0 to |kinds|
      invariant First(kinds, k) == match First(kinds[i..], k) case None => None case Some(n) => Some(n + i)
    {
      FirstStep(kinds[i..], k);
      assert kinds[i..][1..] == kinds[i + 1..];
      if kinds[i] == k { return Some(i); }
    }
    FirstStep(kinds[|kinds|..], k);
    r := None;
  }

  lemma FirstStep(kinds: seq<Kind>, k: Kind)
    ensures kinds == [] ==> First(kinds, k) == None
    ensures kinds != [] ==>
              First(kinds, k) == if kinds[0] == k then Some(0)
                                 else match First(kinds[1..], k) case None => None case Some(n) => Some(n + 1)
  {}

  /**
   * What the page's section holds, in reading order; base paragraphs, t tables and f figures come before the
   * page's.
   */
  method SectionElements(kinds: seq<Kind>, sh: Shift) returns (out: seq<Elem>)
    ensures out == RenElems(sh, Held(kinds, |kinds|))
  {
    hide *;
    HeldNone(kinds);
    RenNone(sh);
    out := [];
    for j := 0 to |kinds|
      invariant out == RenElems(sh, Held(kinds, j))
    {
      HeldStep(kinds, j);
      var before := Held(kinds, j);
      LastSame(sh, before);
      match kinds[j] {
        case Heading | Body | Marked | TableCaption | FigureCaption =>
          OneMore(sh, before, Leaf(Paragraphs, j));
          out := out + [Leaf(Paragraphs, sh.ptr.paragraphs + j)];
        case Cell =>
          OneMore(sh, before, Leaf(Tables, 0));
          if out == [] || out[|out| - 1] != Leaf(Tables, sh.ptr.tables) { out := out + [Leaf(Tables, sh.ptr.tables)]; }
        case FigureText =>
          OneMore(sh, before, Leaf(Figures, 0));
          out := out + [Leaf(Figures, sh.ptr.figures)];
        case Header | Footer | PageNumber =>
      }
    }
  }

  lemma HeldNone(kinds: seq<Kind>)
    ensures Held(kinds, 0) == []
  {}

  lemma RenNone(sh: Shift)
    ensures RenElems(sh, []) == []
  {}

  lemma HeldStep(kinds: seq<Kind>, j: nat)
    requires j < |kinds|
    ensures var out, r := Held(kinds, j), Held(kinds, j + 1);
            match kinds[j]
            case Cell => r == (if out == [] || out[|out| - 1] != Leaf(Tables, 0) then out + [Leaf(Tables, 0)] else out)
            case FigureText => r == out + [Leaf(Figures, 0)]
            case Header => r == out
            case Footer => r == out
            case PageNumber => r == out
            case _ => r == out + [Leaf(Paragraphs, j)]
  {}

  lemma OneMore(sh: Shift, es: seq<Elem>, e: Elem)
    ensures RenElems(sh, es + [e]) == RenElems(sh, es) + [RenElem(sh, e)]
    ensures e.Leaf? && e.m == Paragraphs ==> RenElem(sh, e) == Leaf(Paragraphs, sh.ptr.paragraphs + e.n)
    ensures e == Leaf(Tables, 0) ==> RenElem(sh, e) == Leaf(Tables, sh.ptr.tables)
    ensures e == Leaf(Figures, 0) ==> RenElem(sh, e) == Leaf(Figures, sh.ptr.figures)
  {
    RenElemsConcat(sh, es, [e]);
    assert [e][1..] == [];
    assert RenElems(sh, [e]) == [RenElem(sh, e)] + RenElems(sh, []);
  }

  /** The table was the last one held, and is. */
  lemma LastSame(sh: Shift, es: seq<Elem>)
    ensures es == [] <==> RenElems(sh, es) == []
    ensures es != [] ==>
              (RenElems(sh, es)[|es| - 1] == Leaf(Tables, sh.ptr.tables) <==> es[|es| - 1] == Leaf(Tables, 0))
  {
    if es != [] {
      RenAt(sh, es, |es| - 1);
      RenTable(sh, es[|es| - 1]);
    }
  }

  lemma RenTable(sh: Shift, e: Elem)
    ensures RenElem(sh, e) == Leaf(Tables, sh.ptr.tables) <==> e == Leaf(Tables, 0)
  {}

  /** The spans of the paragraphs that are not furniture. */
  method OwnSpans(paras: seq<Para>) returns (out: seq<Span>)
    ensures out == Own(paras)
  {
    hide Furniture;
    out := [];
    assert paras[..0] == [];
    for i := 0 to |paras|
      invariant out == Own(paras[..i])
    {
      assert paras[..i + 1][..i] == paras[..i];
      if !Furniture(paras[i].kind) { out := out + [paras[i].span]; }
    }
    assert paras[..|paras|] == paras;
  }

  /** A page's paragraphs written after what there is: the content, where it ends, and what is on the page. */
  method WritePage(b: Book, p: nat, num: int, before: Text, start: nat)
    returns (content: Text, pos: nat, paras: seq<Para>, marks: seq<Span>)
    requires !Blank(b, p)
    ensures var n := |Kinds(b, p)|;
            && content == before + PageText(b, p, n) && pos == start + PageEnd(b, p, n)
            && paras == Starting(PageParas(b, p, num), start) && marks == Laid(PageMarks(b, p, n), start)
  {
    hide *;
    content, pos, paras, marks := before, start, [], [];
    var kinds := Kinds(b, p);
    PageStart(b, p, before);
    ParasSize(b, p, num);
    PlacedNone(start);
    for j := 0 to |kinds|
      invariant content == before + PageText(b, p, j) && pos == start + PageEnd(b, p, j)
      invariant paras == Starting(PageParas(b, p, num)[..j], start) && marks == Laid(PageMarks(b, p, j), start)
    {
      PageStep(b, p, j, before);
      if j > 0 {
        content := content + [LF];
        pos := pos + Sep(b);
      }
      var text := b.text(p, j);
      MarksStep(b, p, j, start);
      marks := marks + Laid(b.words(p, j), pos);
      ParaStep(b, p, num, j, start);
      paras := paras + [Para(kinds[j], text, Span(pos, Length(b, text)), num)];
      pos := pos + Length(b, text);
      content := content + text;
    }
    assert PageParas(b, p, num)[..|kinds|] == PageParas(b, p, num);
  }

  /** The paragraphs, when their page starts there. */
  function Starting(paras: seq<Para>, start: nat): (r: seq<Para>)
    ensures |r| == |paras|
    ensures forall i :: 0 <= i < |paras| ==>
             r[i] == paras[i].(span := Span(paras[i].span.offset + start, paras[i].span.length))
  {
    MapSeq((x: Para) => x.(span := Span(x.span.offset + start, x.span.length)), paras)
  }

  lemma ParasSize(b: Book, p: nat, num: int)
    ensures |PageParas(b, p, num)| == |Kinds(b, p)|
    ensures Starting(PageParas(b, p, num)[..0], 0) == []
    ensures forall start :: Starting(PageParas(b, p, num)[..0], start) == []
  {}

  lemma PlacedNone(start: nat)
    ensures Laid([], start) == []
  {}

  lemma PageStart(b: Book, p: nat, before: Text)
    ensures before + PageText(b, p, 0) == before && PageEnd(b, p, 0) == 0 && PageMarks(b, p, 0) == []
  {}

  lemma PageStep(b: Book, p: nat, j: nat, before: Text)
    ensures PageEnd(b, p, j + 1) == Off(b, p, j) + Length(b, b.text(p, j))
    ensures Off(b, p, j) == if j == 0 then 0 else PageEnd(b, p, j) + Sep(b)
    ensures before + PageText(b, p, j + 1)
      == (if j == 0 then before + PageText(b, p, 0) else before + PageText(b, p, j) + [LF]) + b.text(p, j)
    ensures PageEnd(b, p, 0) == 0
  {
    hide Sep, Length;
    if j == 0 {
      assert before + PageText(b, p, 0) + b.text(p, 0) == before + b.text(p, 0);
    } else {
      assert before + (PageText(b, p, j) + [LF] + b.text(p, j)) == before + PageText(b, p, j) + [LF] + b.text(p, j);
    }
  }

  lemma MarksStep(b: Book, p: nat, j: nat, start: nat)
    ensures Laid(PageMarks(b, p, j + 1), start)
      == Laid(PageMarks(b, p, j), start) + Laid(b.words(p, j), start + Off(b, p, j))
  {
    hide Off;
    assert PageMarks(b, p, j + 1) == PageMarks(b, p, j) + Laid(b.words(p, j), Off(b, p, j));
    hide PageMarks;
  }

  lemma ParaStep(b: Book, p: nat, num: int, j: nat, start: nat)
    requires j < |Kinds(b, p)|
    ensures |PageParas(b, p, num)| == |Kinds(b, p)|
    ensures Starting(PageParas(b, p, num)[..j + 1], start) == Starting(PageParas(b, p, num)[..j], start)
      + [Para(Kinds(b, p)[j], b.text(p, j), Span(start + Off(b, p, j), Length(b, b.text(p, j))), num)]
  {
    ParaIs(b, p, num, j);
    hide PageParas, Kinds, Off, Length, Starting;
    StartingNext(PageParas(b, p, num), j, start);
  }

  lemma StartingNext(paras: seq<Para>, j: nat, start: nat)
    requires j < |paras|
    ensures Starting(paras[..j + 1], start) == Starting(paras[..j], start)
      + [paras[j].(span := Span(paras[j].span.offset + start, paras[j].span.length))]
  {}

  /** A page added to what there is. */
  method AddPage(b: Book, g: Model, p: nat, num: int) returns (m: Model)
    requires g.pages == [] ==> g == NONE
    ensures m == Join(b, g, Single(b, p, num))
  {
    hide *;
    var sep, content, pos := Sep(b), g.content, g.end;
    NoneIs();
    if g.pages != [] {
      content := content + [LF];
      pos := pos + sep;
    }
    ghost var sh := AfterModel(b, g);
    AfterStart(b, g);
    var start := pos;
    if Blank(b, p) {
      BlankAdded(b, g, p, num, content, start);
      return g.(content := content, end := start, pages := g.pages + [GenPage(num, Span(start, 0), [])]);
    }
    var kinds, paras, marks := Kinds(b, p), [], [];
    content, pos, paras, marks := WritePage(b, p, num, content, start);
    var place := Shift(1, start, g.end, Bases(|g.paras|, |g.tables|, |g.figures|, 0), 1 + |g.secs|, 0);
    var own := OwnSpans(paras);
    var runs := JoinRuns(own, sep);
    var held := SectionElements(kinds, place);
    var cell := Find(kinds, Cell);
    var caption := Find(kinds, TableCaption);
    var text := Find(kinds, FigureText);
    var legend := Find(kinds, FigureCaption);
    StartingSize(b, p, num, start);
    CellsTogether(b, p);
    var tables := [];
    if cell.Some? {
      var i := cell.value;
      tables := [TableAt(num, place, paras, i, caption)];
    }
    var figures := [];
    if text.Some? {
      figures := [Figure(num, place.ptr.paragraphs + text.value, paras[text.value].span, Pointed(place, legend))];
    }
    m := Model(content, pos, g.pages + [GenPage(num, Span(start, pos - start), marks)], g.paras + paras,
               g.tables + tables, g.figures + figures, g.secs + [Section(Some(held), Some(runs))], g.covered + own);
    SameWhen(place, sh);
    ParasSize(b, p, num);
    TablesMoved(place, PageParas(b, p, num), kinds, num);
    FiguresMoved(place, PageParas(b, p, num), kinds, num);
    PageAdded(b, g, p, num, place, m, paras, tables, figures);
  }

  function Pointed(sh: Shift, c: Option<nat>): Option<nat> {
    if c.None? then None else Some(sh.ptr.paragraphs + c.value)
  }

  /** A table over two cells: from where the first starts to where the second ends. */
  function TableAt(num: int, sh: Shift, paras: seq<Para>, i: nat, caption: Option<nat>): Table
    requires i + 1 < |paras|
  {
    var a, z := paras[i].span, paras[i + 1].span;
    Table(num, sh.ptr.paragraphs + i, Span(a.offset, if End(z) >= a.offset then End(z) - a.offset else 0),
          Pointed(sh, caption))
  }

  lemma StartingSize(b: Book, p: nat, num: int, start: nat)
    ensures |Starting(PageParas(b, p, num), start)| == |Kinds(b, p)|
  {
    hide Kinds;
  }

  lemma AfterStart(b: Book, g: Model)
    requires g.pages == [] ==> g == NONE
    ensures var start := if g.pages == [] then 0 else g.end + Sep(b);
            && AfterModel(b, g).start == start && AfterModel(b, g).secDrop == 0
            && AfterModel(b, g).secBase == 1 + |g.secs|
            && AfterModel(b, g).ptr == Bases(|g.paras|, |g.tables|, |g.figures|, 0)
  {
    hide Sep;
  }

  lemma BlankAdded(b: Book, g: Model, p: nat, num: int, content: Text, start: nat)
    requires Blank(b, p) && (g.pages == [] ==> g == NONE)
    requires content == (if g.pages == [] then g.content else g.content + [LF])
    requires start == AfterModel(b, g).start && (g.pages == [] ==> start == 0)
    ensures g.(content := content, end := start, pages := g.pages + [GenPage(num, Span(start, 0), [])])
      == Join(b, g, Single(b, p, num))
  {
    hide *;
    var h, sh := Single(b, p, num), AfterModel(b, g);
    BlankIs(b, p, num);
    JoinIs(b, g, h);
    NoneIs();
    PageMoved(sh, num, 0, []);
    NothingElse(sh, g, content);
  }

  lemma PageMoved(sh: Shift, num: int, n: nat, marks: seq<Span>)
    ensures MovedPages(sh, [GenPage(num, Span(0, n), marks)])
             == [GenPage(num, Span(sh.start, n), Laid(marks, sh.start))]
    ensures Laid([], sh.start) == []
  {
    hide Shifted;
    assert Shifted(sh, marks) == Laid(marks, sh.start);
  }

  lemma NothingElse(sh: Shift, g: Model, content: Text)
    ensures g.paras + MovedParas(sh, []) == g.paras && g.tables + MovedTables(sh, []) == g.tables
    ensures g.figures + MovedFigures(sh, []) == g.figures && g.secs + MovedSecs(sh, []) == g.secs
    ensures g.covered + Shifted(sh, []) == g.covered && content + [] == content
    ensures [] + g.pages == g.pages
    ensures forall x: GenPage :: [] + [x] == [x]
  {}

  lemma ParasMoved(sh: Shift, paras: seq<Para>)
    ensures MovedParas(sh, paras) == Starting(paras, sh.start)
  {}

  lemma {:induction false} OwnMoved(sh: Shift, paras: seq<Para>)
    ensures Own(Starting(paras, sh.start)) == Shifted(sh, Own(paras))
    decreases |paras|
  {
    hide *;
    var moved := Starting(paras, sh.start);
    OwnNone();
    NoSpans(sh);
    if paras == [] {
      assert moved == [];
    } else {
      var n := |paras| - 1;
      OwnIs(paras);
      OwnIs(moved);
      assert moved[..n] == Starting(paras[..n], sh.start);
      OwnMoved(sh, paras[..n]);
      ShiftedJoin(sh, Own(paras[..n]), [paras[n].span]);
      ShiftedOne(sh, paras[n].span);
      assert Own(paras[..n]) + [] == Own(paras[..n]);
      assert Own(moved[..n]) + [] == Own(moved[..n]);
    }
  }

  lemma ShiftedOne(sh: Shift, s: Span)
    ensures Shifted(sh, [s]) == [Span(s.offset + sh.start, s.length)]
  {
    hide Shifted;
  }

  /** Runs move as their spans do. */
  lemma {:induction false} RunsMoved(sh: Shift, spans: seq<Span>, sep: nat)
    ensures Runs(Shifted(sh, spans), sep) == Shifted(sh, Runs(spans, sep))
    decreases |spans|
  {
    hide *;
    NoSpans(sh);
    RunsNone(sep);
    if spans != [] {
      var n := |spans| - 1;
      ShiftedMore(sh, spans);
      FrontOf(Shifted(sh, spans[..n]), Span(spans[n].offset + sh.start, spans[n].length));
      RunsLast(spans, sep);
      RunsLast(Shifted(sh, spans), sep);
      RunsMoved(sh, spans[..n], sep);
      GrownMoved(sh, Runs(spans[..n], sep), spans[n], sep);
    }
  }

  lemma FrontOf<T>(a: seq<T>, x: T)
    ensures (a + [x])[..|a + [x]| - 1] == a && (a + [x])[|a + [x]| - 1] == x
  {}

  lemma GrownMoved(sh: Shift, runs: seq<Span>, s: Span, sep: nat)
    ensures RunGrown(Shifted(sh, runs), Span(s.offset + sh.start, s.length), sep) == Shifted(sh, RunGrown(runs, s, sep))
  {
    hide *;
    var t := Span(s.offset + sh.start, s.length);
    GrownIs(runs, s, sep);
    GrownIs(Shifted(sh, runs), t, sep);
    EndIs(s);
    EndIs(t);
    ShiftedJoin(sh, runs, [s]);
    ShiftedOne(sh, s);
    if runs != [] {
      var n := |runs| - 1;
      var last := runs[n];
      EndIs(last);
      EndIs(Shifted(sh, runs)[n]);
      if End(last) + sep == s.offset {
        var more := Span(last.offset, End(s) - last.offset);
        ShiftedJoin(sh, runs[..n], [more]);
        ShiftedOne(sh, more);
        assert Shifted(sh, runs)[..n] == Shifted(sh, runs[..n]);
      }
    }
  }

  lemma TablesMoved(sh: Shift, paras: seq<Para>, kinds: seq<Kind>, num: int)
    requires |paras| == |kinds| && (First(kinds, Cell).Some? ==> First(kinds, Cell).value + 1 < |kinds|)
    ensures MovedTables(sh, TablesOf(paras, kinds, num))
      == if First(kinds, Cell).None? then []
         else [TableAt(num, sh, Starting(paras, sh.start), First(kinds, Cell).value, First(kinds, TableCaption))]
  {
    hide First;
  }

  lemma FiguresMoved(sh: Shift, paras: seq<Para>, kinds: seq<Kind>, num: int)
    requires |paras| == |kinds|
    ensures MovedFigures(sh, FiguresOf(paras, kinds, num))
      == if First(kinds, FigureText).None? then []
         else [Figure(num, sh.ptr.paragraphs + First(kinds, FigureText).value,
                      Starting(paras, sh.start)[First(kinds, FigureText).value].span,
                      Pointed(sh, First(kinds, FigureCaption)))]
  {
    hide First;
  }

  lemma SectionMoved(sh: Shift, es: seq<Elem>, spans: seq<Span>)
    ensures MovedSecs(sh, [Section(Some(es), Some(spans))])
             == [Section(Some(RenElems(sh, es)), Some(Shifted(sh, spans)))]
  {
    hide RenElems, Shifted;
  }

  /** The parts put together are the page joined to what there was. */
  lemma PageAdded(
      b: Book, g: Model, p: nat, num: int, sh: Shift, m: Model, paras: seq<Para>, tables: seq<Table>,
      figures: seq<Figure>)
    requires !Blank(b, p) && (g.pages == [] ==> g == NONE)
    requires SamePlace(sh, AfterModel(b, g)) && sh.secBase == 1 + |g.secs| && sh.secDrop == 0
    requires g.pages == [] ==> sh.start == 0
    requires paras == Starting(PageParas(b, p, num), sh.start)
    requires |PageParas(b, p, num)| == |Kinds(b, p)|
    requires tables == MovedTables(sh, TablesOf(PageParas(b, p, num), Kinds(b, p), num))
    requires figures == MovedFigures(sh, FiguresOf(PageParas(b, p, num), Kinds(b, p), num))
    requires var n := |Kinds(b, p)|;
             m == Model(
               (if g.pages == [] then g.content else g.content + [LF]) + PageText(b, p, n), sh.start + PageEnd(b, p, n),
               g.pages + [GenPage(num, Span(sh.start, PageEnd(b, p, n)), Laid(PageMarks(b, p, n), sh.start))],
               g.paras + paras, g.tables + tables, g.figures + figures,
               g.secs + [Section(Some(RenElems(sh, Held(Kinds(b, p), n))), Some(Runs(Own(paras), Sep(b))))],
               g.covered + Own(paras))
    ensures m == Join(b, g, Single(b, p, num))
  {
    hide *;
    var h, n := Single(b, p, num), |Kinds(b, p)|;
    SingleIs(b, p, num);
    SinglePages(b, p, num);
    JoinIs(b, g, h);
    PageMoved(sh, num, PageEnd(b, p, n), PageMarks(b, p, n));
    ParasMoved(sh, PageParas(b, p, num));
    OwnMoved(sh, PageParas(b, p, num));
    RunsMoved(sh, Own(PageParas(b, p, num)), Sep(b));
    SectionMoved(sh, Held(Kinds(b, p), n), Runs(Own(PageParas(b, p, num)), Sep(b)));
    SameMoves(sh, AfterModel(b, g), h);
    SameStart(sh, AfterModel(b, g));
    SameShifted(sh, AfterModel(b, g), h.covered);
    if g.pages == [] {
      NoneIs();
      FirstStill(b, g, sh);
      SectionTitled(b, p, num);
      TitledPositive(h, h.secs[0]);
      StillMoves(sh, h);
      FirstAdded(h);
    }
  }

  lemma FirstStill(b: Book, g: Model, sh: Shift)
    requires g == NONE && SamePlace(sh, AfterModel(b, g))
    requires sh.start == 0 && sh.secBase == 1 + |g.secs| && sh.secDrop == 0
    ensures Still(sh)
  {
    AfterNone(b);
  }

  lemma FirstAdded(h: Model)
    ensures [] + h.content == h.content && [] + h.pages == h.pages
    ensures [] + h.paras == h.paras && [] + h.tables == h.tables
    ensures [] + h.figures == h.figures && [] + h.secs == h.secs && [] + h.covered == h.covered
  {}

  /** The pages analysed together: numbered from 1, or by their place in the original. */
  method Build(b: Book, pages: seq<nat>, local: bool) returns (m: Model)
    ensures m == Built(b, pages, if local then Numbers1(|pages|) else pages)
  {
    hide *;
    ghost var nums: seq<int> := if local then Numbers1(|pages|) else pages;
    m := Empty();
    BuiltNone(b);
    assert pages[..0] == [] && nums[..0] == [];
    for i := 0 to |pages|
      invariant m == Built(b, pages[..i], nums[..i])
    {
      BuiltPages(b, pages[..i], nums[..i]);
      if i == 0 { assert pages[..0] == [] && nums[..0] == []; }
      NoneYet(m, i);
      assert pages[..i + 1][..i] == pages[..i] && nums[..i + 1][..i] == nums[..i];
      BuiltLast(b, pages[..i + 1], nums[..i + 1]);
      m := AddPage(b, m, pages[i], if local then i + 1 else pages[i]);
    }
    assert pages[..|pages|] == pages && nums[..|pages|] == nums;
  }

  lemma NoneYet(m: Model, i: nat)
    requires |m.pages| == i && (i == 0 ==> m == NONE)
    ensures m.pages == [] ==> m == NONE
  {}

  method Empty() returns (m: Model)
    ensures m == NONE
  {
    m := Model([], 0, [], [], [], [], [], []);
  }
}
