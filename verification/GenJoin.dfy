/** Generating some pages and then others, and joining: the same as generating them together. */
module GenJoin {
  import opened Sections
  import opened Forest
  import opened Lead
  import opened Renumber
  import opened Incremental
  import opened TextUnits
  import opened Generate

  /** Moving by b and then by a is moving by c. */
  predicate Composes(a: Shift, b: Shift, c: Shift) {
    && a.secDrop == 0 && b.secDrop == 0 && c.secDrop == 0
    && a.secBase >= 1 && b.secBase >= 1 && c.secBase + 1 == a.secBase + b.secBase
    && c.start == a.start + b.start
    && c.ptr.paragraphs == a.ptr.paragraphs + b.ptr.paragraphs && c.ptr.tables == a.ptr.tables + b.ptr.tables
    && c.ptr.figures == a.ptr.figures + b.ptr.figures && c.ptr.pairs == a.ptr.pairs + b.ptr.pairs
  }

  /** Moves nothing. */
  predicate Still(sh: Shift) {
    sh.start == 0 && sh.ptr == Bases(0, 0, 0, 0) && sh.secBase == 1 && sh.secDrop == 0
  }

  lemma ElemTwice(a: Shift, b: Shift, c: Shift, e: Elem)
    requires Composes(a, b, c)
    ensures RenElem(a, RenElem(b, e)) == RenElem(c, e)
  {
    match e
    case Leaf(m, n) =>
      match m {
        case Paragraphs =>
        case Tables =>
        case Figures =>
        case KeyValuePairs =>
      }
    case Sec(i) =>
  }

  lemma {:induction false} ElemsTwice(a: Shift, b: Shift, c: Shift, es: seq<Elem>)
    requires Composes(a, b, c)
    ensures RenElems(a, RenElems(b, es)) == RenElems(c, es)
    decreases |es|
  {
    hide Composes, RenElem;
    if es != [] {
      ElemTwice(a, b, c, es[0]);
      ElemsTwice(a, b, c, es[1..]);
      assert RenElems(b, es)[1..] == RenElems(b, es[1..]);
    }
  }

  lemma SpansTwice(a: Shift, b: Shift, c: Shift, spans: seq<Span>)
    requires Composes(a, b, c)
    ensures Shifted(a, Shifted(b, spans)) == Shifted(c, spans)
  {
    StartsAdd(a, b, c);
    hide *;
  }

  lemma StartsAdd(a: Shift, b: Shift, c: Shift)
    requires Composes(a, b, c)
    ensures c.start == a.start + b.start
  {}

  lemma SecTwice(a: Shift, b: Shift, c: Shift, s: Section)
    requires Composes(a, b, c)
    ensures RenSection(a, RenSection(b, s)) == RenSection(c, s)
  {
    hide *;
    if s.elements.Some? { ElemsTwice(a, b, c, s.elements.value); }
    if s.spans.Some? { SpansTwice(a, b, c, s.spans.value); }
    RenSectionIs(a, RenSection(b, s));
    RenSectionIs(b, s);
    RenSectionIs(c, s);
  }

  lemma RenSectionIs(sh: Shift, s: Section)
    ensures RenSection(sh, s)
      == Section(if s.elements.Some? then Some(RenElems(sh, s.elements.value)) else None,
                 if s.spans.Some? then Some(Shifted(sh, s.spans.value)) else None)
  {}

  lemma ItemsTwice(a: Shift, b: Shift, c: Shift)
    requires Composes(a, b, c)
    ensures forall x :: MovePara(a, MovePara(b, x)) == MovePara(c, x)
    ensures forall x :: MoveTable(a, MoveTable(b, x)) == MoveTable(c, x)
    ensures forall x :: MoveFigure(a, MoveFigure(b, x)) == MoveFigure(c, x)
    ensures forall x :: MovePage(a, MovePage(b, x)) == MovePage(c, x)
  {
    forall x ensures MovePage(a, MovePage(b, x)) == MovePage(c, x) { SpansTwice(a, b, c, x.marks); }
    hide Shifted;
  }

  lemma ListsTwice(a: Shift, b: Shift, c: Shift, h: Model)
    requires Composes(a, b, c)
    ensures MovedPages(a, MovedPages(b, h.pages)) == MovedPages(c, h.pages)
    ensures MovedParas(a, MovedParas(b, h.paras)) == MovedParas(c, h.paras)
    ensures MovedTables(a, MovedTables(b, h.tables)) == MovedTables(c, h.tables)
    ensures MovedFigures(a, MovedFigures(b, h.figures)) == MovedFigures(c, h.figures)
    ensures MovedSecs(a, MovedSecs(b, h.secs)) == MovedSecs(c, h.secs)
    ensures Shifted(a, Shifted(b, h.covered)) == Shifted(c, h.covered)
  {
    ItemsTwice(a, b, c);
    SpansTwice(a, b, c, h.covered);
    forall x ensures RenSection(a, RenSection(b, x)) == RenSection(c, x) { SecTwice(a, b, c, x); }
    hide Composes, MovePage, MovePara, MoveTable, MoveFigure, RenSection, Shifted;
  }

  lemma {:induction false} ShiftedJoin(sh: Shift, a: seq<Span>, b: seq<Span>)
    ensures Shifted(sh, a + b) == Shifted(sh, a) + Shifted(sh, b)
  {
    hide *;
  }

  lemma ListsJoin(sh: Shift, g: Model, pages: seq<GenPage>, paras: seq<Para>, tables: seq<Table>, figures: seq<Figure>,
      secs: seq<Section>, covered: seq<Span>)
    ensures MovedPages(sh, g.pages + pages) == MovedPages(sh, g.pages) + MovedPages(sh, pages)
    ensures MovedParas(sh, g.paras + paras) == MovedParas(sh, g.paras) + MovedParas(sh, paras)
    ensures MovedTables(sh, g.tables + tables) == MovedTables(sh, g.tables) + MovedTables(sh, tables)
    ensures MovedFigures(sh, g.figures + figures) == MovedFigures(sh, g.figures) + MovedFigures(sh, figures)
    ensures MovedSecs(sh, g.secs + secs) == MovedSecs(sh, g.secs) + MovedSecs(sh, secs)
    ensures Shifted(sh, g.covered + covered) == Shifted(sh, g.covered) + Shifted(sh, covered)
  {
    hide MovePage, MovePara, MoveTable, MoveFigure, RenSection, Shifted;
    ShiftedJoin(sh, g.covered, covered);
  }

  lemma JoinIs(b: Book, g: Model, h: Model)
    ensures g.pages == [] ==> Join(b, g, h) == h
    ensures h.pages == [] && g.pages != [] ==> Join(b, g, h) == g
    ensures g.pages != [] && h.pages != [] ==>
              var sh := AfterModel(b, g);
              Join(b, g, h) == Model(
                g.content + [LF] + h.content, sh.start + h.end, g.pages + MovedPages(sh, h.pages),
                g.paras + MovedParas(sh, h.paras),
                g.tables + MovedTables(sh, h.tables), g.figures + MovedFigures(sh, h.figures),
                g.secs + MovedSecs(sh, h.secs),
                g.covered + Shifted(sh, h.covered))
  {}

  lemma ListSizes(sh: Shift, h: Model)
    ensures |MovedPages(sh, h.pages)| == |h.pages| && |MovedParas(sh, h.paras)| == |h.paras|
    ensures |MovedTables(sh, h.tables)| == |h.tables|
    ensures |MovedFigures(sh, h.figures)| == |h.figures| && |MovedSecs(sh, h.secs)| == |h.secs|
  {}

  lemma AfterIs(b: Book, g: Model)
    requires g.pages != []
    ensures AfterModel(b, g)
      == Shift(1, g.end + Sep(b), g.end, Bases(|g.paras|, |g.tables|, |g.figures|, 0), 1 + |g.secs|, 0)
  {}

  /** What comes after g and then h, by way of h. */
  lemma AfterJoin(b: Book, g: Model, h: Model)
    requires g.pages != [] && h.pages != []
    ensures Join(b, g, h).pages != [] && Composes(AfterModel(b, g), AfterModel(b, h), AfterModel(b, Join(b, g, h)))
  {
    hide *;
    JoinIs(b, g, h);
    AfterIs(b, g);
    AfterIs(b, h);
    ListSizes(AfterModel(b, g), h);
    AfterIs(b, Join(b, g, h));
    ComposesWhen(AfterModel(b, g), AfterModel(b, h), AfterModel(b, Join(b, g, h)));
  }

  lemma ComposesWhen(a: Shift, b: Shift, c: Shift)
    requires a.secDrop == 0 && b.secDrop == 0 && c.secDrop == 0
    requires a.secBase >= 1 && b.secBase >= 1 && c.secBase + 1 == a.secBase + b.secBase && c.start == a.start + b.start
    requires c.ptr.paragraphs == a.ptr.paragraphs + b.ptr.paragraphs && c.ptr.tables == a.ptr.tables + b.ptr.tables
    requires c.ptr.figures == a.ptr.figures + b.ptr.figures && c.ptr.pairs == a.ptr.pairs + b.ptr.pairs
    ensures Composes(a, b, c)
  {}

  lemma NonePages()
    ensures NONE.pages == []
  {}

  lemma Associates(b: Book, g: Model, h: Model, k: Model)
    ensures Join(b, Join(b, g, h), k) == Join(b, g, Join(b, h, k))
  {
    hide *;
    JoinIs(b, g, h);
    JoinIs(b, h, k);
    JoinIs(b, Join(b, g, h), k);
    JoinIs(b, g, Join(b, h, k));
    if g.pages != [] && h.pages != [] && k.pages != [] { AssociatesAll(b, g, h, k); }
  }

  lemma AssociatesAll(b: Book, g: Model, h: Model, k: Model)
    requires g.pages != [] && h.pages != [] && k.pages != []
    ensures Join(b, Join(b, g, h), k) == Join(b, g, Join(b, h, k))
  {
    hide *;
    JoinIs(b, g, h);
    JoinIs(b, h, k);
    AfterJoin(b, g, h);
    var sg, sh := AfterModel(b, g), AfterModel(b, h);
    var sgh := AfterModel(b, Join(b, g, h));
    ListSizes(sh, k);
    JoinIs(b, Join(b, g, h), k);
    JoinIs(b, g, Join(b, h, k));
    ListsTwice(sg, sh, sgh, k);
    ListsJoin(sg, h, MovedPages(sh, k.pages), MovedParas(sh, k.paras), MovedTables(sh, k.tables),
              MovedFigures(sh, k.figures),
              MovedSecs(sh, k.secs), Shifted(sh, k.covered));
    StartsAdd(sg, sh, sgh);
    Three(g.pages, MovedPages(sg, h.pages), MovedPages(sgh, k.pages));
    Three(g.paras, MovedParas(sg, h.paras), MovedParas(sgh, k.paras));
    Three(g.tables, MovedTables(sg, h.tables), MovedTables(sgh, k.tables));
    Three(g.figures, MovedFigures(sg, h.figures), MovedFigures(sgh, k.figures));
    Three(g.secs, MovedSecs(sg, h.secs), MovedSecs(sgh, k.secs));
    Three(g.covered, Shifted(sg, h.covered), Shifted(sgh, k.covered));
    assert (g.content + [LF] + h.content) + [LF] + k.content == g.content + [LF] + (h.content + [LF] + k.content);
  }

  lemma Three<T>(a: seq<T>, b: seq<T>, c: seq<T>)
    ensures (a + b) + c == a + (b + c)
  {}

  lemma BuiltLast(b: Book, pages: seq<nat>, nums: seq<int>)
    requires |nums| == |pages| > 0
    ensures var n := |pages| - 1;
            Built(b, pages, nums) == Join(b, Built(b, pages[..n], nums[..n]), Single(b, pages[n], nums[n]))
  {}

  lemma BuiltNone(b: Book)
    ensures Built(b, [], []) == NONE
  {}

  /** The pages of two lists together are those of the first, and then those of the second. */
  lemma {:induction false} BuiltJoin(b: Book, p: seq<nat>, x: seq<int>, q: seq<nat>, y: seq<int>)
    requires |x| == |p| && |y| == |q|
    ensures Built(b, p + q, x + y) == Join(b, Built(b, p, x), Built(b, q, y))
    decreases |q|
  {
    hide *;
    if q == [] {
      assert p + q == p && x + y == x && q == [] && y == [];
      BuiltNone(b);
      NonePages();
      NoneRight(b, Built(b, p, x), p, x);
    } else {
      var n := |q| - 1;
      assert (p + q)[..|p + q| - 1] == p + q[..n] && (x + y)[..|p + q| - 1] == x + y[..n];
      BuiltLast(b, p + q, x + y);
      BuiltLast(b, q, y);
      BuiltJoin(b, p, x, q[..n], y[..n]);
      Associates(b, Built(b, p, x), Built(b, q[..n], y[..n]), Single(b, q[n], y[n]));
    }
  }

  lemma NoneRight(b: Book, g: Model, p: seq<nat>, x: seq<int>)
    requires |x| == |p| && g == Built(b, p, x)
    ensures Join(b, g, NONE) == g
  {
    hide *;
    NonePages();
    JoinIs(b, g, NONE);
    BuiltPages(b, p, x);
    if p == [] {
      assert x == [];
      BuiltNone(b);
    }
  }

  lemma OnePage(b: Book, p: nat, num: int)
    ensures |Single(b, p, num).pages| == 1
  {}

  /** As many pages as asked for. */
  lemma {:induction false} BuiltPages(b: Book, p: seq<nat>, x: seq<int>)
    requires |x| == |p|
    ensures |Built(b, p, x).pages| == |p|
    decreases |p|
  {
    hide *;
    if p == [] {
      assert x == [];
      BuiltNone(b);
      NonePages();
    } else {
      var n := |p| - 1;
      BuiltLast(b, p, x);
      BuiltPages(b, p[..n], x[..n]);
      OnePage(b, p[n], x[n]);
      JoinIs(b, Built(b, p[..n], x[..n]), Single(b, p[n], x[n]));
      ListSizes(AfterModel(b, Built(b, p[..n], x[..n])), Single(b, p[n], x[n]));
    }
  }

  // Page numbers.

  function Renumbered(m: Model, f: int -> int): Model {
    m.(pages := MapSeq(x => NumPage(x, f), m.pages), paras := MapSeq(x => NumPara(x, f), m.paras),
       tables := MapSeq(x => NumTable(x, f), m.tables), figures := MapSeq(x => NumFigure(x, f), m.figures))
  }

  function NumPage(x: GenPage, f: int -> int): GenPage { x.(num := f(x.num)) }
  function NumPara(x: Para, f: int -> int): Para { x.(page := f(x.page)) }
  function NumTable(x: Table, f: int -> int): Table { x.(page := f(x.page)) }
  function NumFigure(x: Figure, f: int -> int): Figure { x.(page := f(x.page)) }

  lemma RenumberedIs(m: Model, f: int -> int)
    ensures Renumbered(m, f) == Model(
              m.content, m.end, MapSeq(x => NumPage(x, f), m.pages), MapSeq(x => NumPara(x, f), m.paras),
              MapSeq(x => NumTable(x, f), m.tables), MapSeq(x => NumFigure(x, f), m.figures), m.secs, m.covered)
  {}

  lemma PagesNumbered(sh: Shift, a: seq<GenPage>, b: seq<GenPage>, f: int -> int)
    ensures MapSeq(x => NumPage(x, f), a + MovedPages(sh, b))
      == MapSeq(x => NumPage(x, f), a) + MovedPages(sh, MapSeq(x => NumPage(x, f), b))
  {
    forall x ensures NumPage(MovePage(sh, x), f) == MovePage(sh, NumPage(x, f)) {}
    hide NumPage, MovePage;
  }

  lemma ParasNumbered(sh: Shift, a: seq<Para>, b: seq<Para>, f: int -> int)
    ensures MapSeq(x => NumPara(x, f), a + MovedParas(sh, b))
      == MapSeq(x => NumPara(x, f), a) + MovedParas(sh, MapSeq(x => NumPara(x, f), b))
  {
    forall x ensures NumPara(MovePara(sh, x), f) == MovePara(sh, NumPara(x, f)) {}
    hide NumPara, MovePara;
  }

  lemma TablesNumbered(sh: Shift, a: seq<Table>, b: seq<Table>, f: int -> int)
    ensures MapSeq(x => NumTable(x, f), a + MovedTables(sh, b))
      == MapSeq(x => NumTable(x, f), a) + MovedTables(sh, MapSeq(x => NumTable(x, f), b))
  {
    forall x ensures NumTable(MoveTable(sh, x), f) == MoveTable(sh, NumTable(x, f)) {}
    hide NumTable, MoveTable;
  }

  lemma FiguresNumbered(sh: Shift, a: seq<Figure>, b: seq<Figure>, f: int -> int)
    ensures MapSeq(x => NumFigure(x, f), a + MovedFigures(sh, b))
      == MapSeq(x => NumFigure(x, f), a) + MovedFigures(sh, MapSeq(x => NumFigure(x, f), b))
  {
    forall x ensures NumFigure(MoveFigure(sh, x), f) == MoveFigure(sh, NumFigure(x, f)) {}
    hide NumFigure, MoveFigure;
  }

  lemma NumbersJoin(b: Book, g: Model, h: Model, f: int -> int)
    ensures Renumbered(Join(b, g, h), f) == Join(b, Renumbered(g, f), Renumbered(h, f))
  {
    hide *;
    var sh := AfterModel(b, g);
    AfterNumbers(b, g, f);
    RenumberedIs(g, f);
    RenumberedIs(h, f);
    RenumberedIs(Join(b, g, h), f);
    SameSize(g.pages, MapSeq(x => NumPage(x, f), g.pages));
    SameSize(h.pages, MapSeq(x => NumPage(x, f), h.pages));
    JoinIs(b, g, h);
    JoinIs(b, Renumbered(g, f), Renumbered(h, f));
    PagesNumbered(sh, g.pages, h.pages, f);
    ParasNumbered(sh, g.paras, h.paras, f);
    TablesNumbered(sh, g.tables, h.tables, f);
    FiguresNumbered(sh, g.figures, h.figures, f);
  }

  lemma SameSize<T>(a: seq<T>, b: seq<T>)
    requires |a| == |b|
    ensures a == [] <==> b == []
  {}

  lemma AfterNumbers(b: Book, g: Model, f: int -> int)
    ensures AfterModel(b, Renumbered(g, f)) == AfterModel(b, g)
  {}

  lemma ParasOne(b: Book, p: nat, num: int, f: int -> int)
    ensures MapSeq(x => NumPara(x, f), PageParas(b, p, num)) == PageParas(b, p, f(num))
  {
    hide Kinds, Length, Off;
  }

  lemma TablesOne(paras: seq<Para>, more: seq<Para>, kinds: seq<Kind>, num: int, f: int -> int)
    requires |paras| == |more| == |kinds| && forall j :: 0 <= j < |paras| ==> more[j].span == paras[j].span
    ensures MapSeq(x => NumTable(x, f), TablesOf(paras, kinds, num)) == TablesOf(more, kinds, f(num))
    ensures MapSeq(x => NumFigure(x, f), FiguresOf(paras, kinds, num)) == FiguresOf(more, kinds, f(num))
  {
    hide First;
  }

  lemma SameSpans(b: Book, p: nat, num: int, other: int)
    ensures |PageParas(b, p, num)| == |PageParas(b, p, other)|
    ensures forall j :: 0 <= j < |PageParas(b, p, num)| ==>
              && PageParas(b, p, other)[j].span == PageParas(b, p, num)[j].span
              && PageParas(b, p, other)[j].kind == PageParas(b, p, num)[j].kind
  {
    hide Kinds, Length, Off;
  }

  lemma NumbersOne(b: Book, p: nat, num: int, f: int -> int)
    ensures Renumbered(Single(b, p, num), f) == Single(b, p, f(num))
  {
    hide *;
    RenumberedIs(Single(b, p, num), f);
    if Blank(b, p) {
      BlankIs(b, p, num);
      BlankIs(b, p, f(num));
      NothingMapped(f, num, 0, []);
    } else {
      SingleIs(b, p, num);
      SingleIs(b, p, f(num));
      ParasOne(b, p, num, f);
      SameSpans(b, p, num, f(num));
      TablesOne(PageParas(b, p, num), PageParas(b, p, f(num)), Kinds(b, p), num, f);
      OwnSame(PageParas(b, p, num), PageParas(b, p, f(num)));
      NothingMapped(f, num, PageEnd(b, p, |Kinds(b, p)|), PageMarks(b, p, |Kinds(b, p)|));
    }
  }

  lemma NothingMapped(f: int -> int, num: int, end: nat, marks: seq<Span>)
    ensures MapSeq(x => NumPage(x, f), [GenPage(num, Span(0, end), marks)]) == [GenPage(f(num), Span(0, end), marks)]
    ensures MapSeq(x => NumPara(x, f), []) == [] && MapSeq(x => NumTable(x, f), []) == []
    ensures MapSeq(x => NumFigure(x, f), []) == []
  {}

  lemma BlankIs(b: Book, p: nat, num: int)
    requires Blank(b, p)
    ensures Single(b, p, num) == Model([], 0, [GenPage(num, Span(0, 0), [])], [], [], [], [], [])
  {}

  lemma SingleIs(b: Book, p: nat, num: int)
    requires !Blank(b, p)
    ensures var kinds, paras := Kinds(b, p), PageParas(b, p, num);
            var n := |kinds|;
            && |paras| == n
            && Single(b, p, num) == Model(
                 PageText(b, p, n), PageEnd(b, p, n), [GenPage(num, Span(0, PageEnd(b, p, n)), PageMarks(b, p, n))],
                 paras, TablesOf(paras, kinds, num), FiguresOf(paras, kinds, num),
                 [Section(Some(Held(kinds, n)), Some(Runs(Own(paras), Sep(b))))], Own(paras))
  {
    hide Kinds, PageText, PageEnd, PageMarks, Runs, Held, PageParas, Own, TablesOf, FiguresOf, Sep;
  }

  lemma {:induction false} OwnSame(a: seq<Para>, b: seq<Para>)
    requires |a| == |b| && forall i :: 0 <= i < |a| ==> a[i].kind == b[i].kind && a[i].span == b[i].span
    ensures Own(a) == Own(b)
    decreases |a|
  {
    if a != [] { OwnSame(a[..|a| - 1], b[..|b| - 1]); }
  }

  lemma {:induction false} NumbersBuilt(b: Book, pages: seq<nat>, nums: seq<int>, f: int -> int)
    requires |nums| == |pages|
    ensures Renumbered(Built(b, pages, nums), f) == Built(b, pages, MapSeq(f, nums))
    decreases |pages|
  {
    hide *;
    if pages == [] {
      assert nums == [] && MapSeq(f, nums) == [];
      BuiltNone(b);
      NoneNumbered(f);
    } else {
      var n := |pages| - 1;
      BuiltLast(b, pages, nums);
      BuiltLast(b, pages, MapSeq(f, nums));
      NumbersBuilt(b, pages[..n], nums[..n], f);
      NumbersJoin(b, Built(b, pages[..n], nums[..n]), Single(b, pages[n], nums[n]), f);
      NumbersOne(b, pages[n], nums[n], f);
      assert MapSeq(f, nums)[..n] == MapSeq(f, nums[..n]);
    }
  }

  lemma NoneNumbered(f: int -> int)
    ensures Renumbered(NONE, f) == NONE
  {}
}
