/** The merged arrays and sections of generated parts are those of their pages together, part by part. */
module GenTable {
  import opened Sections
  import opened Forest
  import opened Lead
  import opened Fold
  import opened Renumber
  import opened Incremental
  import opened Document
  import opened Deferred
  import opened Merger
  import opened Acceptance
  import opened TextUnits
  import References
  import PageMap
  import opened Generate
  import opened GenJoin
  import opened GenRuns
  import opened GenProper
  import opened GenParts

  // Items.

  lemma SameShifted(a: Shift, c: Shift, spans: seq<Span>)
    requires a.start == c.start
    ensures Shifted(a, spans) == Shifted(c, spans)
  {
    hide *;
  }

  lemma {:induction false} SameElems(a: Shift, c: Shift, es: seq<Elem>)
    requires SamePlace(a, c)
    ensures RenElems(a, es) == RenElems(c, es)
    decreases |es|
  {
    if es != [] { SameElems(a, c, es[1..]); }
  }

  lemma SameSection(a: Shift, c: Shift, s: Section)
    requires SamePlace(a, c)
    ensures RenSection(a, s) == RenSection(c, s)
  {
    SameStart(a, c);
    hide *;
    if s.elements.Some? { SameElems(a, c, s.elements.value); }
    if s.spans.Some? { SameShifted(a, c, s.spans.value); }
    RenSectionIs(a, s);
    RenSectionIs(c, s);
  }

  lemma SameStart(a: Shift, c: Shift)
    requires SamePlace(a, c)
    ensures a.start == c.start
  {}

  lemma SameMoves(a: Shift, c: Shift, m: Model)
    requires SamePlace(a, c)
    ensures MovedPages(a, m.pages) == MovedPages(c, m.pages) && MovedParas(a, m.paras) == MovedParas(c, m.paras)
    ensures MovedTables(a, m.tables) == MovedTables(c, m.tables)
    ensures MovedFigures(a, m.figures) == MovedFigures(c, m.figures)
    ensures MovedSecs(a, m.secs) == MovedSecs(c, m.secs)
  {
    forall x ensures MovePage(a, x) == MovePage(c, x) { SameShifted(a, c, x.marks); }
    forall x ensures RenSection(a, x) == RenSection(c, x) { SameSection(a, c, x); }
    hide RenSection, MovePage;
  }

  lemma StillMoves(sh: Shift, m: Model)
    requires Still(sh) && forall i :: 0 <= i < |m.secs| ==> Positive(m.secs[i])
    ensures MovedPages(sh, m.pages) == m.pages && MovedParas(sh, m.paras) == m.paras
    ensures MovedTables(sh, m.tables) == m.tables && MovedFigures(sh, m.figures) == m.figures
    ensures MovedSecs(sh, m.secs) == m.secs && Shifted(sh, m.covered) == m.covered
  {
    forall x ensures MovePage(sh, x) == x { StillSpans(sh, x.marks); }
    StillSpans(sh, m.covered);
    forall i | 0 <= i < |m.secs| ensures RenSection(sh, m.secs[i]) == m.secs[i] { StillSection(sh, m.secs[i]); }
    hide RenSection, MovePage, Shifted;
  }

  /** A section that points at items only. */
  predicate Positive(s: Section) { forall i :: 0 <= i < |Elems(s)| ==> Elems(s)[i].Leaf? }

  lemma StillSpans(sh: Shift, spans: seq<Span>)
    requires Still(sh)
    ensures Shifted(sh, spans) == spans
  {
    hide Shifted;
  }

  lemma {:induction false} StillElems(sh: Shift, es: seq<Elem>)
    requires Still(sh) && forall i :: 0 <= i < |es| ==> es[i].Leaf?
    ensures RenElems(sh, es) == es
    decreases |es|
  {
    if es != [] {
      StillElems(sh, es[1..]);
      assert es == [es[0]] + es[1..];
    }
  }

  lemma StillSection(sh: Shift, s: Section)
    requires Still(sh) && Positive(s)
    ensures RenSection(sh, s) == s
  {
    if s.elements.Some? {
      assert forall i :: 0 <= i < |s.elements.value| ==> Elems(s)[i] == s.elements.value[i];
      StillElems(sh, s.elements.value);
    }
    if s.spans.Some? { StillSpans(sh, s.spans.value); }
    hide RenElems, Shifted, Still;
  }

  lemma TitledPositive(m: Model, s: Section)
    requires Titled(m, s)
    ensures Positive(s)
  {
    forall i | 0 <= i < |Elems(s)| ensures Elems(s)[i].Leaf? { assert There(m, s.elements.value[i]); }
  }

  lemma ProperPositive(b: Book, run: seq<nat>, f: int -> int)
    ensures var m := Renumbered(Local(b, run), f);
            && m.secs == Local(b, run).secs && m.covered == Local(b, run).covered && m.end == Local(b, run).end
            && forall i :: 0 <= i < |m.secs| ==> Positive(m.secs[i])
  {
    hide *;
    var m := Local(b, run);
    RenumberedIs(m, f);
    ProperLocal(b, run);
    ProperParts(b, m);
    forall i | 0 <= i < |m.secs| ensures Positive(m.secs[i]) { TitledPositive(m, m.secs[i]); }
  }

  /** What the merge shows of part j is what joining its result to those before it adds. */
  lemma ShownIs(b: Book, runs: seq<seq<nat>>, shs: seq<Shift>, j: nat)
    requires GoodBook(b) && j < |runs| && forall k :: 0 <= k < |runs| ==> runs[k] != []
    requires shs == Shifts(Parts(b, runs), Aparts(|runs|), Sep(b))
    ensures |shs| == |runs|
    ensures var g, h, m := Whole(b, runs, j), Whole(b, runs, j + 1), Shown(b, runs, shs, j);
            && h.pages == g.pages + m.pages && h.paras == g.paras + m.paras
            && h.tables == g.tables + m.tables && h.figures == g.figures + m.figures
  {
    hide *;
    var f := Original(runs[j]);
    var m := Renumbered(Local(b, runs[j]), f);
    PartsSize(b, runs);
    var g, sh := Whole(b, runs, j), shs[j];
    ShiftAt(Parts(b, runs), Aparts(|runs|), Sep(b), j);
    ShiftsThere(b, runs, j);
    ShownParts(b, runs, shs, j);
    WholeNext(b, runs, j);
    JoinIs(b, g, m);
    LocalPages(b, runs[j]);
    if j == 0 {
      WholeNone(b, runs);
      NoneIs();
      ProperPositive(b, runs[j], f);
      StillMoves(sh, m);
      NothingFirst(m);
    } else {
      SomePages(b, runs, j);
      SameMoves(sh, AfterModel(b, g), m);
    }
  }

  lemma NothingFirst(m: Model)
    ensures [] + m.pages == m.pages && [] + m.paras == m.paras
    ensures [] + m.tables == m.tables && [] + m.figures == m.figures
  {}

  lemma ShownParts(b: Book, runs: seq<seq<nat>>, shs: seq<Shift>, k: nat)
    requires k < |runs| == |shs|
    ensures var m, r := Renumbered(Local(b, runs[k]), Original(runs[k])), Shown(b, runs, shs, k);
            && r.pages == MovedPages(shs[k], m.pages) && r.paras == MovedParas(shs[k], m.paras)
            && r.tables == MovedTables(shs[k], m.tables) && r.figures == MovedFigures(shs[k], m.figures)
  {
    hide Renumbered, Local, Original, MovedPages, MovedParas, MovedTables, MovedFigures;
  }

  lemma ItemsNext<T>(lists: seq<seq<T>>, j: nat)
    requires j < |lists|
    ensures References.AllItems(lists, j + 1) == References.AllItems(lists, j) + lists[j]
    ensures References.AllItems(lists, 0) == []
  {}

  lemma {:induction false} ItemsMerged(b: Book, runs: seq<seq<nat>>, shs: seq<Shift>, j: nat)
    requires GoodBook(b) && j <= |runs| && forall k :: 0 <= k < |runs| ==> runs[k] != []
    requires shs == Shifts(Parts(b, runs), Aparts(|runs|), Sep(b))
    ensures |shs| == |runs|
    ensures var g, all := Whole(b, runs, j), AllShown(b, runs, shs);
            && References.AllItems(PageLists(all), j) == g.pages
            && References.AllItems(ParaLists(all), j) == g.paras
            && References.AllItems(TableLists(all), j) == g.tables
            && References.AllItems(FigureLists(all), j) == g.figures
    decreases j
  {
    hide *;
    PartsSize(b, runs);
    var all := AllShown(b, runs, shs);
    if j == 0 {
      WholeNone(b, runs);
      NoneIs();
      NoItems(PageLists(all));
      NoItems(ParaLists(all));
      NoItems(TableLists(all));
      NoItems(FigureLists(all));
    } else {
      ItemsMerged(b, runs, shs, j - 1);
      ShownIs(b, runs, shs, j - 1);
      ItemsNext(PageLists(all), j - 1);
      ItemsNext(ParaLists(all), j - 1);
      ItemsNext(TableLists(all), j - 1);
      ItemsNext(FigureLists(all), j - 1);
    }
  }

  lemma NoItems<T>(lists: seq<seq<T>>)
    ensures References.AllItems(lists, 0) == []
  {}

  lemma {:induction false} ContentMerged(b: Book, runs: seq<seq<nat>>, j: nat)
    requires 0 < j <= |runs| && forall k :: 0 <= k < |runs| ==> runs[k] != []
    ensures |Texts(b, runs)| == |runs|
    ensures References.Merged(Texts(b, runs), [LF], j) == Whole(b, runs, j).content
    decreases j
  {
    hide *;
    var f, m := Original(runs[j - 1]), Local(b, runs[j - 1]);
    ContentIs(b, runs, j - 1);
    MergedNext(Texts(b, runs), j);
    WholeNext(b, runs, j - 1);
    RenumberedIs(m, f);
    LocalPages(b, runs[j - 1]);
    JoinIs(b, Whole(b, runs, j - 1), Renumbered(m, f));
    if j == 1 {
      WholeNone(b, runs);
      NoneIs();
    } else {
      ContentMerged(b, runs, j - 1);
      SomePages(b, runs, j - 1);
    }
  }

  lemma ContentIs(b: Book, runs: seq<seq<nat>>, k: nat)
    requires k < |runs|
    ensures |Texts(b, runs)| == |runs| && Texts(b, runs)[k] == Local(b, runs[k]).content
  {
    hide Local;
  }

  lemma MergedNext(contents: seq<Text>, j: nat)
    requires 0 < j <= |contents|
    ensures References.Merged(contents, [LF], j)
      == if j == 1 then contents[0] else References.Merged(contents, [LF], j - 1) + [LF] + contents[j - 1]
  {}

  // Sections.

  /** The merge's table, as it should be once it has the pages of m. */
  function Tabled(b: Book, m: Model): (t: seq<Section>)
    ensures t != []
  {
    if m.secs == [] then [Section(None, None)] else Assembled(b, m)
  }

  lemma TabledIs(b: Book, m: Model)
    ensures |Tabled(b, m)| == 1 + |m.secs|
    ensures m.secs == [] ==> Tabled(b, m) == [Section(None, None)]
    ensures m.secs != [] ==>
              Tabled(b, m) == [Section(Some(Pointers(|m.secs|)), Some(Runs(m.covered, Sep(b))))] + m.secs
    ensures forall i :: 0 <= i < |m.secs| ==> Tabled(b, m)[1 + i] == m.secs[i]
  {
    AssembledIs(b, m);
    hide Runs, Sep, Pointers;
  }

  lemma RootApart(t: seq<Section>, open: seq<nat>, p: Part, sh: Shift)
    requires sh.prevEnd <= sh.start && p.sections != [] && t != []
    requires p.sections[0].elements.Some? && p.sections[0].spans.Some?
    ensures AddPart(t, open, p, Apart, sh)[0]
      == Section(Some(Elems(t[0]) + RenElems(sh, Elems(p.sections[0]))),
                 Some(Append(sh, Spans(t[0]), Spans(p.sections[0]))))
  {
    hide RenElems, Append;
    assert AddPart(t, open, p, Apart, sh)[0] == GrowAt(t, open, p, Apart, sh, 0);
  }

  lemma OldApart(t: seq<Section>, open: seq<nat>, p: Part, sh: Shift, x: nat)
    requires sh.prevEnd <= sh.start && p.sections != [] && 0 < x < |t|
    ensures AddPart(t, open, p, Apart, sh)[x] == t[x]
  {
    assert AddPart(t, open, p, Apart, sh)[x] == GrowAt(t, open, p, Apart, sh, x);
    GrowNone(t[x], sh);
    if x in open {
      ApartShares(p, |open|, Find(open, x) + 1);
    }
  }

  lemma ApartShares(p: Part, depth: nat, d: nat)
    requires d > 0
    ensures ShareElems(p, Apart, depth, d) == [] && ShareSpans(p, Apart, d) == []
  {}

  lemma NewApart(t: seq<Section>, open: seq<nat>, p: Part, sh: Shift, i: nat)
    requires sh.prevEnd <= sh.start && i + 1 < |p.sections|
    ensures |AddPart(t, open, p, Apart, sh)| == |t| + |p.sections| - 1
    ensures AddPart(t, open, p, Apart, sh)[|t| + i] == RenSection(sh, p.sections[1 + i])
  {
    hide RenSection, GrowAt;
  }

  /** A part that stands apart: its root's content after the root's, its sections after the sections. */
  lemma AddApart(t: seq<Section>, open: seq<nat>, p: Part, sh: Shift)
    requires sh.prevEnd <= sh.start && p.sections != [] && t != []
    requires p.sections[0].elements.Some? && p.sections[0].spans.Some?
    ensures AddPart(t, open, p, Apart, sh)
      == [Section(Some(Elems(t[0]) + RenElems(sh, Elems(p.sections[0]))),
                  Some(Append(sh, Spans(t[0]), Spans(p.sections[0]))))]
         + t[1..] + MovedSecs(sh, p.sections[1..])
  {
    hide *;
    var r := AddPart(t, open, p, Apart, sh);
    RootApart(t, open, p, sh);
    SecMoved(sh, p.sections[1..]);
    ApartSize(t, open, p, sh);
    forall x | 0 < x < |t| ensures r[x] == t[x] { OldApart(t, open, p, sh, x); }
    forall i: nat | i < |p.sections| - 1 ensures r[|t| + i] == RenSection(sh, p.sections[1..][i]) {
      NewApart(t, open, p, sh, i);
    }
    Assemble(r, r[0], t, MovedSecs(sh, p.sections[1..]));
  }

  lemma ApartSize(t: seq<Section>, open: seq<nat>, p: Part, sh: Shift)
    requires sh.prevEnd <= sh.start && p.sections != []
    ensures |AddPart(t, open, p, Apart, sh)| == |t| + |p.sections| - 1
  {
    hide RenSection, GrowAt;
  }

  lemma Assemble<T>(r: seq<T>, x: T, t: seq<T>, more: seq<T>)
    requires t != [] && |r| == |t| + |more| && r[0] == x && (forall i :: 0 < i < |t| ==> r[i] == t[i])
    requires forall i :: 0 <= i < |more| ==> r[|t| + i] == more[i]
    ensures r == [x] + t[1..] + more
  {}

  lemma PointersOn(sh: Shift, n: nat, m: nat)
    requires sh.secBase == 1 + n && sh.secDrop == 0
    ensures Pointers(n) + RenElems(sh, Pointers(m)) == Pointers(n + m)
  {
    forall i | 0 <= i < m ensures RenElems(sh, Pointers(m))[i] == Sec(n + i + 1) { RenAt(sh, Pointers(m), i); }
    hide RenElems, Pointers;
  }

  lemma TableRoot(b: Book, g: Model)
    requires Proper(b, g)
    ensures Elems(Tabled(b, g)[0]) == Pointers(|g.secs|) && Spans(Tabled(b, g)[0]) == Runs(g.covered, Sep(b))
    ensures Tabled(b, g)[1..] == g.secs
  {
    hide Titled;
    TabledIs(b, g);
    if g.secs == [] {
      assert g.covered == [];
      assert Pointers(0) == [];
    }
  }

  /** The table with a part's sections added. */
  lemma TableAdded(b: Book, g: Model, m: Model, open: seq<nat>, p: Part, sh: Shift)
    requires Proper(b, g) && m.secs != [] && p.sections == Assembled(b, m) && sh.prevEnd <= sh.start
    ensures p.sections != []
    ensures AddPart(Tabled(b, g), open, p, Apart, sh)
      == [Section(Some(Pointers(|g.secs|) + RenElems(sh, Pointers(|m.secs|))),
                  Some(Append(sh, Runs(g.covered, Sep(b)), Runs(m.covered, Sep(b)))))]
         + g.secs + MovedSecs(sh, m.secs)
  {
    hide *;
    AssembledIs(b, m);
    FieldsAre(Pointers(|m.secs|), Runs(m.covered, Sep(b)), p.sections[0]);
    AddApart(Tabled(b, g), open, p, sh);
    TableRoot(b, g);
    TailOf(p.sections, p.sections[0], m.secs);
  }

  /** The table of the pages together. */
  lemma TableJoined(b: Book, g: Model, m: Model)
    requires g.pages != [] && m.pages != [] && m.secs != []
    ensures Tabled(b, Join(b, g, m))
      == [Section(Some(Pointers(|g.secs| + |m.secs|)), Some(Runs(Join(b, g, m).covered, Sep(b))))]
         + g.secs + MovedSecs(AfterModel(b, g), m.secs)
  {
    hide *;
    JoinIs(b, g, m);
    ListSizes(AfterModel(b, g), m);
    TabledIs(b, Join(b, g, m));
    Three([Section(Some(Pointers(|g.secs| + |m.secs|)), Some(Runs(Join(b, g, m).covered, Sep(b))))], g.secs,
          MovedSecs(AfterModel(b, g), m.secs));
  }

  /** Adding a part's sections is adding its pages. */
  lemma TableGrows(b: Book, g: Model, m: Model, open: seq<nat>, p: Part, sh: Shift)
    requires Proper(b, g) && Proper(b, m) && m.secs != [] && p.sections == Assembled(b, m) && Sep(b) > 0
    requires g.pages != [] && m.pages != [] && SamePlace(sh, AfterModel(b, g))
    requires sh.secBase == 1 + |g.secs| && sh.secDrop == 0
    requires sh.k > 0 && sh.prevEnd == g.end && sh.start == g.end + Sep(b)
    ensures p.sections != []
    ensures AddPart(Tabled(b, g), open, p, Apart, sh) == Tabled(b, Join(b, g, m))
  {
    hide *;
    TableAdded(b, g, m, open, p, sh);
    TableJoined(b, g, m);
    PointersOn(sh, |g.secs|, |m.secs|);
    ProperParts(b, g);
    ProperParts(b, m);
    EndsInside(g.covered, g.end);
    RunsJoin(sh, g.covered, m.covered, Sep(b));
    JoinIs(b, g, m);
    SameMoves(sh, AfterModel(b, g), m);
    SameStart(sh, AfterModel(b, g));
    SameShifted(sh, AfterModel(b, g), m.covered);
  }

  lemma TailOf<T>(all: seq<T>, x: T, rest: seq<T>)
    requires all == [x] + rest
    ensures all[1..] == rest
  {}

  lemma FieldsAre(es: seq<Elem>, spans: seq<Span>, s: Section)
    requires s == Section(Some(es), Some(spans))
    ensures s.elements.Some? && s.spans.Some? && Elems(s) == es && Spans(s) == spans
  {}

  lemma EndsInside(spans: seq<Span>, end: nat)
    requires Within(spans, end)
    ensures spans != [] ==> End(spans[|spans| - 1]) <= end
  {}

  /** The first part's sections are the table. */
  lemma TableFirst(b: Book, m: Model, open: seq<nat>, p: Part, sh: Shift)
    requires Proper(b, m) && m.secs != [] && p.sections == Assembled(b, m)
    requires Still(sh) && sh.k == 0 && sh.prevEnd == 0
    ensures p.sections != [] && sh.prevEnd <= sh.start
    ensures AddPart([Section(None, None)], open, p, Apart, sh) == Tabled(b, m)
  {
    StillParts(sh);
    hide *;
    AssembledIs(b, m);
    FieldsAre(Pointers(|m.secs|), Runs(m.covered, Sep(b)), p.sections[0]);
    NoRootYet();
    AddApart([Section(None, None)], open, p, sh);
    PointersOn(sh, 0, |m.secs|);
    AppendFirstPart(sh, Runs(m.covered, Sep(b)));
    ProperParts(b, m);
    forall i | 0 <= i < |m.secs| ensures Positive(m.secs[i]) { TitledPositive(m, m.secs[i]); }
    StillMoves(sh, m);
    TailOf(p.sections, p.sections[0], m.secs);
    TabledIs(b, m);
  }

  lemma StillParts(sh: Shift)
    requires Still(sh)
    ensures sh.start == 0 && sh.secBase == 1 && sh.secDrop == 0
  {}

  lemma NoRootYet()
    ensures Elems(Section(None, None)) == [] == Pointers(0) && Spans(Section(None, None)) == []
    ensures [Section(None, None)][1..] == []
    ensures forall x: Section, more: seq<Section> :: [x] + [] + more == [x] + more
  {}

  lemma WholeProper(b: Book, runs: seq<seq<nat>>, j: nat)
    requires j <= |runs|
    ensures Proper(b, Whole(b, runs, j))
  {
    hide *;
    WholeIs(b, runs, j);
    BuiltProper(b, PagesTo(runs, j), PagesTo(runs, j));
  }

  lemma {:induction false} TableMerged(b: Book, runs: seq<seq<nat>>, j: nat)
    requires GoodBook(b) && j <= |runs| && forall k :: 0 <= k < |runs| ==> runs[k] != []
    ensures |Parts(b, runs)| == |runs| && PlanTo(Parts(b, runs), j).Ok?
    ensures TableTo(Parts(b, runs), Aparts(|runs|), Sep(b), j) == Tabled(b, Whole(b, runs, j))
    decreases j
  {
    hide *;
    var parts, shapes := Parts(b, runs), Aparts(|runs|);
    AllApart(b, runs, j);
    if j == 0 {
      NoTable(parts, shapes, Sep(b));
      WholeNone(b, runs);
      NoneIs();
      TabledIs(b, NONE);
    } else {
      AllApart(b, runs, j - 1);
      TableMerged(b, runs, j - 1);
      OpenPlaced(parts, shapes, j - 1);
      NextTable(parts, shapes, Sep(b), j);
      PartIs(b, runs, j - 1);
      var f, m := Original(runs[j - 1]), Local(b, runs[j - 1]);
      PartFields(b, m);
      WholeNext(b, runs, j - 1);
      ProperPositive(b, runs[j - 1], f);
      ShiftsThere(b, runs, j - 1);
      TableStep(b, runs, j, WhereAll(parts, shapes, Open(parts, j - 1)));
    }
  }

  lemma NoTable(parts: seq<Part>, shapes: seq<Shape>, sep: nat)
    requires |parts| == |shapes|
    ensures PlanTo(parts, 0).Ok? && TableTo(parts, shapes, sep, 0) == [Section(None, None)]
  {}

  lemma RenumberedProper(b: Book, run: seq<nat>)
    ensures Proper(b, Renumbered(Local(b, run), Original(run)))
  {
    hide *;
    LocalMapped(b, run);
    BuiltProper(b, run, run);
  }

  lemma TableStep(b: Book, runs: seq<seq<nat>>, j: nat, open: seq<nat>)
    requires GoodBook(b) && 0 < j <= |runs| && forall k :: 0 <= k < |runs| ==> runs[k] != []
    ensures |Parts(b, runs)| == |runs|
    ensures var p, sh := Parts(b, runs)[j - 1], ShiftOf(Parts(b, runs), Aparts(|runs|), Sep(b), j - 1);
            && sh.prevEnd <= sh.start
            && (p.sections == [] ==> Tabled(b, Whole(b, runs, j)) == Tabled(b, Whole(b, runs, j - 1)))
            && (p.sections != [] ==>
                  AddPart(Tabled(b, Whole(b, runs, j - 1)), open, p, Apart, sh) == Tabled(b, Whole(b, runs, j)))
  {
    hide *;
    PartIs(b, runs, j - 1);
    var f, m := Original(runs[j - 1]), Local(b, runs[j - 1]);
    var g, h := Whole(b, runs, j - 1), Renumbered(m, f);
    var p, sh := Parts(b, runs)[j - 1], ShiftOf(Parts(b, runs), Aparts(|runs|), Sep(b), j - 1);
    PartFields(b, m);
    AssembledIs(b, m);
    ShiftsThere(b, runs, j - 1);
    WholeNext(b, runs, j - 1);
    ProperPositive(b, runs[j - 1], f);
    RenumberedProper(b, runs[j - 1]);
    LocalPages(b, runs[j - 1]);
    AssembledSame(b, m, h);
    SepIs(b);
    JoinIs(b, g, h);
    TabledIs(b, g);
    if j == 1 {
      WholeNone(b, runs);
      NoneIs();
      StillParts(sh);
      if m.secs != [] { TableFirst(b, h, open, p, sh); } else { TabledIs(b, h); }
    } else {
      SomePages(b, runs, j - 1);
      WholeProper(b, runs, j - 1);
      if m.secs != [] {
        TableGrows(b, g, h, open, p, sh);
      } else {
        NothingMoved(b, g, h);
      }
    }
  }

  lemma AssembledSame(b: Book, m: Model, h: Model)
    requires h.secs == m.secs && h.covered == m.covered
    ensures Assembled(b, h) == Assembled(b, m)
  {
    hide Runs, Pointers, Sep;
  }

  lemma NothingMoved(b: Book, g: Model, h: Model)
    requires Proper(b, h) && h.secs == [] && g.pages != [] && h.pages != []
    ensures Tabled(b, Join(b, g, h)) == Tabled(b, g)
  {
    hide *;
    ProperParts(b, h);
    JoinIs(b, g, h);
    NothingShifted(AfterModel(b, g));
    assert g.secs + [] == g.secs && g.covered + [] == g.covered;
    TabledIs(b, g);
    TabledIs(b, Join(b, g, h));
  }

  lemma NothingShifted(sh: Shift)
    ensures MovedSecs(sh, []) == [] && Shifted(sh, []) == []
  {}
}
