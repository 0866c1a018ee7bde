/**
 * Results generated for any set of pages, as if those pages had been analysed together
 * (internal/docgen/docgen.go:34-59, 150-330): the content, and every item of it in its place.
 */
module Generate {
  import opened Sections
  import opened Forest
  import opened Lead
  import opened Renumber
  import opened Incremental
  import opened TextUnits

  /** The kinds of paragraph on a page. */
  datatype Kind =
    Header | Heading | Body | Marked | Cell | TableCaption | FigureCaption | FigureText | Footer | PageNumber

  /** One that no section holds. */
  predicate Furniture(k: Kind) { k == Header || k == Footer || k == PageNumber }

  datatype Para = Para(kind: Kind, text: Text, span: Span, page: int)

  /** marks are the spans of the page's words, selection marks and lines. */
  datatype GenPage = GenPage(num: int, span: Span, marks: seq<Span>)

  /** A table's two cells are the paragraphs from first on; a figure's text is one. A caption is a paragraph too. */
  datatype Table = Table(page: int, first: nat, span: Span, caption: Option<nat>)
  datatype Figure = Figure(page: int, text: nat, span: Span, caption: Option<nat>)

  /** secs are the pages' sections, after the root; covered are the spans of the paragraphs the root holds. */
  datatype Model = Model(
    content: Text, end: nat, pages: seq<GenPage>, paras: seq<Para>, tables: seq<Table>, figures: seq<Figure>,
    secs: seq<Section>, covered: seq<Span>)

  /** The document: how its pages are dressed, the text of each paragraph of each page, and the words in it. */
  datatype Book = Book(
    unit: Unit, cut: Clusters, furniture: bool, blankEvery: nat, captions: bool, selections: bool,
    text: (nat, nat) -> Text, words: (nat, nat) -> seq<Span>)

  predicate Blank(b: Book, p: nat) { b.blankEvery > 0 && p % b.blankEvery == 0 }

  function Length(b: Book, s: Text): nat { |Steps(b.unit, b.cut, s)| }

  /** A line feed: what stands between two paragraphs, and between two pages. */
  function Sep(b: Book): nat { Length(b, [LF]) }

  /** What a page holds, in order. */
  function Kinds(b: Book, p: nat): seq<Kind> {
    (if b.furniture && p % 2 == 0 then [Header] else []) +
    ([Heading, Body, Body] +
     ((if b.selections && p % 5 == 0 then [Marked] else []) +
      ((if p % 3 == 0 then [Cell, Cell] + (if b.captions then [TableCaption] else []) else []) +
       ((if p % 4 == 0 then (if b.captions then [FigureCaption] else []) + [FigureText] else []) +
        (if b.furniture then (if p % 2 == 1 then [Footer] else []) + [PageNumber] else [])))))
  }

  /** Where paragraph j of a page starts, from where the page does. */
  function Off(b: Book, p: nat, j: nat): nat
    decreases j
  {
    if j == 0 then 0 else Off(b, p, j - 1) + Length(b, b.text(p, j - 1)) + Sep(b)
  }

  /** The page's first n paragraphs, a line feed between them. */
  function PageText(b: Book, p: nat, n: nat): Text
    decreases n
  {
    if n == 0 then [] else if n == 1 then b.text(p, 0) else PageText(b, p, n - 1) + [LF] + b.text(p, n - 1)
  }

  /** Where they end. */
  function PageEnd(b: Book, p: nat, n: nat): nat {
    if n == 0 then 0 else Off(b, p, n - 1) + Length(b, b.text(p, n - 1))
  }

  function ParaAt(b: Book, p: nat, num: int, j: nat): Para
    requires j < |Kinds(b, p)|
  {
    Para(Kinds(b, p)[j], b.text(p, j), Span(Off(b, p, j), Length(b, b.text(p, j))), num)
  }

  function PageParas(b: Book, p: nat, num: int): (r: seq<Para>)
    ensures |r| == |Kinds(b, p)| && forall j :: 0 <= j < |r| ==> r[j] == ParaAt(b, p, num, j)
  {
    seq(|Kinds(b, p)|, j requires 0 <= j < |Kinds(b, p)| => ParaAt(b, p, num, j))
  }

  /** The spans of what is in the page's first n paragraphs. */
  function PageMarks(b: Book, p: nat, n: nat): seq<Span>
    decreases n
  {
    if n == 0 then [] else PageMarks(b, p, n - 1) + Laid(b.words(p, n - 1), Off(b, p, n - 1))
  }

  function Laid(spans: seq<Span>, at: nat): seq<Span> {
    seq(|spans|, i requires 0 <= i < |spans| => Span(spans[i].offset + at, spans[i].length))
  }

  /** The first paragraph of this kind. */
  function First(kinds: seq<Kind>, k: Kind): (r: Option<nat>)
    ensures r.Some? <==> k in kinds
    ensures r.Some? ==> r.value < |kinds| && kinds[r.value] == k
    decreases |kinds|
  {
    if kinds == [] then None
    else if kinds[0] == k then Some(0)
    else
      var r := First(kinds[1..], k);
      if r.None? then None else Some(r.value + 1)
  }

  /** What the page's section holds of its first n paragraphs: cells belong to the table, a figure's text to it. */
  function Held(kinds: seq<Kind>, n: nat): seq<Elem>
    requires n <= |kinds|
    decreases n
  {
    if n == 0 then []
    else
      var out := Held(kinds, n - 1);
      match kinds[n - 1]
      case Cell => if out == [] || out[|out| - 1] != Leaf(Tables, 0) then out + [Leaf(Tables, 0)] else out
      case FigureText => out + [Leaf(Figures, 0)]
      case Header => out
      case Footer => out
      case PageNumber => out
      case _ => out + [Leaf(Paragraphs, n - 1)]
  }

  /** The spans of the paragraphs some section holds. */
  function Own(paras: seq<Para>): seq<Span>
    decreases |paras|
  {
    if paras == [] then []
    else
      var last := paras[|paras| - 1];
      Own(paras[..|paras| - 1]) + if Furniture(last.kind) then [] else [last.span]
  }

  /** Spans joined while only a separator lies between two. */
  function Runs(spans: seq<Span>, sep: nat): seq<Span>
    decreases |spans|
  {
    if spans == [] then []
    else RunGrown(Runs(spans[..|spans| - 1], sep), spans[|spans| - 1], sep)
  }

  /** The runs with one span more. */
  function RunGrown(runs: seq<Span>, s: Span, sep: nat): seq<Span> {
    if runs != [] && End(runs[|runs| - 1]) + sep == s.offset then
      runs[..|runs| - 1] + [Span(runs[|runs| - 1].offset, End(s) - runs[|runs| - 1].offset)]
    else runs + [s]
  }

  /** A table over the first two cells. */
  function TablesOf(paras: seq<Para>, kinds: seq<Kind>, num: int): seq<Table>
    requires |paras| == |kinds|
  {
    var c := First(kinds, Cell);
    if c.None? || c.value + 1 >= |paras| then []
    else
      var a, z := paras[c.value].span, paras[c.value + 1].span;
      [Table(num, c.value, Span(a.offset, if End(z) >= a.offset then End(z) - a.offset else 0),
             First(kinds, TableCaption))]
  }

  function FiguresOf(paras: seq<Para>, kinds: seq<Kind>, num: int): seq<Figure>
    requires |paras| == |kinds|
  {
    var t := First(kinds, FigureText);
    if t.None? then [] else [Figure(num, t.value, paras[t.value].span, First(kinds, FigureCaption))]
  }

  const NONE := Model([], 0, [], [], [], [], [], [])

  /** One page by itself. */
  function Single(b: Book, p: nat, num: int): Model {
    if Blank(b, p) then NONE.(pages := [GenPage(num, Span(0, 0), [])])
    else
      var kinds, paras := Kinds(b, p), PageParas(b, p, num);
      var n := |kinds|;
      Model(PageText(b, p, n), PageEnd(b, p, n), [GenPage(num, Span(0, PageEnd(b, p, n)), PageMarks(b, p, n))],
            paras, TablesOf(paras, kinds, num), FiguresOf(paras, kinds, num),
            [Section(Some(Held(kinds, n)), Some(Runs(Own(paras), Sep(b))))], Own(paras))
  }

  // Pages one after another.

  /** Where what comes after g goes. */
  function AfterModel(b: Book, g: Model): Shift {
    if g.pages == [] then Shift(0, 0, 0, Bases(0, 0, 0, 0), 1, 0)
    else Shift(1, g.end + Sep(b), g.end, Bases(|g.paras|, |g.tables|, |g.figures|, 0), 1 + |g.secs|, 0)
  }

  function MoveSpan(sh: Shift, s: Span): Span { Span(s.offset + sh.start, s.length) }

  function MoveCaption(sh: Shift, c: Option<nat>): Option<nat> {
    if c.None? then None else Some(RenElem(sh, Leaf(Paragraphs, c.value)).n)
  }

  function MovePage(sh: Shift, x: GenPage): GenPage { GenPage(x.num, MoveSpan(sh, x.span), Shifted(sh, x.marks)) }
  function MovePara(sh: Shift, x: Para): Para { x.(span := MoveSpan(sh, x.span)) }
  function MoveTable(sh: Shift, x: Table): Table {
    Table(x.page, RenElem(sh, Leaf(Paragraphs, x.first)).n, MoveSpan(sh, x.span), MoveCaption(sh, x.caption))
  }
  function MoveFigure(sh: Shift, x: Figure): Figure {
    Figure(x.page, RenElem(sh, Leaf(Paragraphs, x.text)).n, MoveSpan(sh, x.span), MoveCaption(sh, x.caption))
  }

  function MapSeq<T, U>(f: T -> U, s: seq<T>): (r: seq<U>)
    ensures |r| == |s| && forall i :: 0 <= i < |s| ==> r[i] == f(s[i])
  {
    seq(|s|, i requires 0 <= i < |s| => f(s[i]))
  }

  function MovedPages(sh: Shift, xs: seq<GenPage>): seq<GenPage> { MapSeq(x => MovePage(sh, x), xs) }
  function MovedParas(sh: Shift, xs: seq<Para>): seq<Para> { MapSeq(x => MovePara(sh, x), xs) }
  function MovedTables(sh: Shift, xs: seq<Table>): seq<Table> { MapSeq(x => MoveTable(sh, x), xs) }
  function MovedFigures(sh: Shift, xs: seq<Figure>): seq<Figure> { MapSeq(x => MoveFigure(sh, x), xs) }
  function MovedSecs(sh: Shift, xs: seq<Section>): seq<Section> { MapSeq(x => RenSection(sh, x), xs) }

  /** g's pages and then h's. */
  function Join(b: Book, g: Model, h: Model): Model {
    if g.pages == [] then h
    else if h.pages == [] then g
    else
      var sh := AfterModel(b, g);
      Model(g.content + [LF] + h.content, sh.start + h.end, g.pages + MovedPages(sh, h.pages),
            g.paras + MovedParas(sh, h.paras),
            g.tables + MovedTables(sh, h.tables), g.figures + MovedFigures(sh, h.figures),
            g.secs + MovedSecs(sh, h.secs),
            g.covered + Shifted(sh, h.covered))
  }

  /** The pages analysed together, with these numbers. */
  function Built(b: Book, pages: seq<nat>, nums: seq<int>): Model
    requires |nums| == |pages|
    decreases |pages|
  {
    if pages == [] then NONE
    else
      var n := |pages| - 1;
      Join(b, Built(b, pages[..n], nums[..n]), Single(b, pages[n], nums[n]))
  }

  /** The result's sections: none if no page has one. */
  function Assembled(b: Book, m: Model): seq<Section> {
    if m.secs == [] then []
    else [Section(Some(Pointers(|m.secs|)), Some(Runs(m.covered, Sep(b))))] + m.secs
  }

  function Pointers(n: nat): (r: seq<Elem>)
    ensures |r| == n && forall i :: 0 <= i < n ==> r[i] == Sec(i + 1)
  {
    seq(n, i requires 0 <= i < n => Sec(i + 1))
  }
}
