/**
 * Generated parts, as the merge measures and places them (internal/docgen/docgen.go:186-261,
 * internal/merge/check.go:356-374):
 * every part opens with a heading and stands apart, where its pages stand among all the pages.
 */
module GenParts {
  import opened Sections
  import opened Forest
  import opened Lead
  import opened Fold
  import opened Renumber
  import opened Incremental
  import opened Document
  import opened Deferred
  import opened Merger
  import opened Acceptance
  import opened TextUnits
  import References
  import PageMap
  import opened Generate
  import opened GenJoin
  import opened GenRuns
  import opened GenProper

  /** A result, as far as merging changes it. */
  datatype Result = Result(
    content: Text, pages: seq<GenPage>, paras: seq<Para>, tables: seq<Table>, figures: seq<Figure>,
    sections: seq<Section>)

  /** The result generated for these pages, with these numbers. */
  function Generated(b: Book, pages: seq<nat>, nums: seq<int>): Result
    requires |nums| == |pages|
  {
    var m := Built(b, pages, nums);
    Result(m.content, m.pages, m.paras, m.tables, m.figures, Assembled(b, m))
  }

  function Numbers1(n: nat): (r: seq<int>)
    ensures |r| == n && forall i :: 0 <= i < n ==> r[i] == i + 1
  {
    seq(n, i => i + 1)
  }

  /** The result of one part, its pages numbered from 1. */
  function Local(b: Book, run: seq<nat>): Model { Built(b, run, Numbers1(|run|)) }

  function Heads(paras: seq<Para>): set<nat> { set j: nat | j < |paras| && paras[j].kind == Heading }

  /** The part as the merge measures it. */
  function PartOf(b: Book, m: Model): Part {
    Part(Assembled(b, m), Heads(m.paras), Length(b, m.content), MapSeq((x: Para) => [x.span], m.paras),
         MapSeq((x: Table) => [x.span], m.tables), MapSeq((x: Figure) => [x.span], m.figures), [])
  }

  function Parts(b: Book, runs: seq<seq<nat>>): seq<Part> { MapSeq(run => PartOf(b, Local(b, run)), runs) }

  /** The pages of the first j parts. */
  function PagesTo(runs: seq<seq<nat>>, j: nat): seq<nat>
    requires j <= |runs|
    decreases j
  {
    if j == 0 then [] else PagesTo(runs, j - 1) + runs[j - 1]
  }

  function Original(run: seq<nat>): int -> int {
    n => var p := PageMap.MapPage(run, true, n); if p.Some? then p.value else n
  }

  /** What part k's items come to: their pages mapped, their offsets and pointers shifted. */
  function Shown(b: Book, runs: seq<seq<nat>>, shs: seq<Shift>, k: nat): Model
    requires k < |runs| == |shs|
  {
    var m := Renumbered(Local(b, runs[k]), Original(runs[k]));
    m.(pages := MovedPages(shs[k], m.pages), paras := MovedParas(shs[k], m.paras),
       tables := MovedTables(shs[k], m.tables), figures := MovedFigures(shs[k], m.figures))
  }

  function AllShown(b: Book, runs: seq<seq<nat>>, shs: seq<Shift>): (r: seq<Model>)
    requires |runs| == |shs|
    ensures |r| == |runs| && forall k :: 0 <= k < |r| ==> r[k] == Shown(b, runs, shs, k)
  {
    seq(|runs|, k requires 0 <= k < |runs| => Shown(b, runs, shs, k))
  }

  function Texts(b: Book, runs: seq<seq<nat>>): seq<Text> { MapSeq(run => Local(b, run).content, runs) }

  function PageLists(all: seq<Model>): (r: seq<seq<GenPage>>)
    ensures |r| == |all| && forall k :: 0 <= k < |all| ==> r[k] == all[k].pages
  {
    MapSeq((m: Model) => m.pages, all)
  }

  function ParaLists(all: seq<Model>): (r: seq<seq<Para>>)
    ensures |r| == |all| && forall k :: 0 <= k < |all| ==> r[k] == all[k].paras
  {
    MapSeq((m: Model) => m.paras, all)
  }

  function TableLists(all: seq<Model>): (r: seq<seq<Table>>)
    ensures |r| == |all| && forall k :: 0 <= k < |all| ==> r[k] == all[k].tables
  {
    MapSeq((m: Model) => m.tables, all)
  }

  function FigureLists(all: seq<Model>): (r: seq<seq<Figure>>)
    ensures |r| == |all| && forall k :: 0 <= k < |all| ==> r[k] == all[k].figures
  {
    MapSeq((m: Model) => m.figures, all)
  }

  /** The merged result: every array the parts' items one after another, and the sections as they are written. */
  function Merged(b: Book, runs: seq<seq<nat>>, shapes: seq<Shape>): Result
    requires |shapes| == |runs| && PlanTo(Parts(b, runs), |runs|).Ok?
    requires AllApt(Shifts(Parts(b, runs), shapes, Sep(b)), FoldsTo(Parts(b, runs), shapes, |runs|))
  {
    var parts := Parts(b, runs);
    var shs := Shifts(parts, shapes, Sep(b));
    var all := AllShown(b, runs, shs);
    Result(
      References.Merged(Texts(b, runs), [LF], |runs|),
      References.AllItems(PageLists(all), |runs|),
      References.AllItems(ParaLists(all), |runs|),
      References.AllItems(TableLists(all), |runs|),
      References.AllItems(FigureLists(all), |runs|),
      Output(parts, shapes, shs, FoldsTo(parts, shapes, |runs|)))
  }

  // The pages of the first parts together.

  function Whole(b: Book, runs: seq<seq<nat>>, j: nat): Model
    requires j <= |runs|
  {
    Built(b, PagesTo(runs, j), PagesTo(runs, j))
  }

  lemma PagesNext(runs: seq<seq<nat>>, j: nat)
    requires j < |runs|
    ensures PagesTo(runs, j + 1) == PagesTo(runs, j) + runs[j]
    ensures PagesTo(runs, 0) == []
  {}

  lemma Mapped(run: seq<nat>)
    ensures MapSeq(Original(run), Numbers1(|run|)) == run
  {}

  /** Part j's own numbers mapped, it is the result of its pages under their original numbers. */
  lemma LocalMapped(b: Book, run: seq<nat>)
    ensures Renumbered(Local(b, run), Original(run)) == Built(b, run, run)
  {
    hide *;
    Mapped(run);
    LocalIs(b, run);
    NumbersBuilt(b, run, Numbers1(|run|), Original(run));
  }

  lemma LocalIs(b: Book, run: seq<nat>)
    ensures Local(b, run) == Built(b, run, Numbers1(|run|))
  {
    hide Built, Numbers1;
  }

  lemma WholeIs(b: Book, runs: seq<seq<nat>>, j: nat)
    requires j <= |runs|
    ensures Whole(b, runs, j) == Built(b, PagesTo(runs, j), PagesTo(runs, j))
  {
    hide Built, PagesTo;
  }

  lemma WholeNext(b: Book, runs: seq<seq<nat>>, j: nat)
    requires j < |runs|
    ensures Whole(b, runs, j + 1) == Join(b, Whole(b, runs, j), Renumbered(Local(b, runs[j]), Original(runs[j])))
  {
    hide *;
    WholeIs(b, runs, j);
    WholeIs(b, runs, j + 1);
    PagesNext(runs, j);
    LocalMapped(b, runs[j]);
    BuiltJoin(b, PagesTo(runs, j), PagesTo(runs, j), runs[j], runs[j]);
  }

  lemma WholeNone(b: Book, runs: seq<seq<nat>>)
    ensures Whole(b, runs, 0) == NONE
  {
    hide *;
    WholeIs(b, runs, 0);
    NoPages(runs);
    BuiltNone(b);
  }

  lemma NoPages(runs: seq<seq<nat>>)
    ensures PagesTo(runs, 0) == []
  {}

  lemma {:induction false} SomePages(b: Book, runs: seq<seq<nat>>, j: nat)
    requires 0 < j <= |runs| && forall k :: 0 <= k < |runs| ==> runs[k] != []
    ensures Whole(b, runs, j).pages != []
  {
    hide *;
    WholeIs(b, runs, j);
    PagesNext(runs, j - 1);
    BuiltPages(b, PagesTo(runs, j), PagesTo(runs, j));
    NotEmpty(PagesTo(runs, j - 1), runs[j - 1], Whole(b, runs, j).pages);
  }

  lemma NotEmpty<T>(a: seq<nat>, c: seq<nat>, t: seq<T>)
    requires c != [] && |t| == |a + c|
    ensures t != []
  {}

  lemma LocalPages(b: Book, run: seq<nat>)
    requires run != []
    ensures Renumbered(Local(b, run), Original(run)).pages != [] && Local(b, run).pages != []
  {
    hide *;
    LocalIs(b, run);
    BuiltPages(b, run, Numbers1(|run|));
    RenumberedIs(Local(b, run), Original(run));
    SameSize(Local(b, run).pages, MapSeq(x => NumPage(x, Original(run)), Local(b, run).pages));
    NotEmpty([], run, Local(b, run).pages);
    assert [] + run == run;
  }

  // Every part stands apart.

  lemma PartIs(b: Book, runs: seq<seq<nat>>, k: nat)
    requires k < |runs|
    ensures |Parts(b, runs)| == |runs| && Parts(b, runs)[k] == PartOf(b, Local(b, runs[k]))
  {
    hide PartOf, Local;
  }

  lemma AssembledIs(b: Book, m: Model)
    ensures m.secs == [] ==> Assembled(b, m) == []
    ensures m.secs != [] ==>
              && |Assembled(b, m)| == 1 + |m.secs|
              && Assembled(b, m)[0] == Section(Some(Pointers(|m.secs|)), Some(Runs(m.covered, Sep(b))))
              && Assembled(b, m) == [Assembled(b, m)[0]] + m.secs
              && forall i :: 0 <= i < |m.secs| ==> Assembled(b, m)[1 + i] == m.secs[i]
  {
    hide Runs, Sep, Pointers;
  }

  lemma HeadsIs(m: Model, e: Elem, p: Part)
    requires Titles(m, e) && p.heads == Heads(m.paras)
    ensures IsHeading(p, e)
  {}

  lemma PartFields(b: Book, m: Model)
    ensures var p := PartOf(b, m);
            && p.sections == Assembled(b, m) && p.heads == Heads(m.paras) && p.length == Length(b, m.content)
            && |p.paragraphs| == |m.paras| && |p.tables| == |m.tables| && |p.figures| == |m.figures| && p.pairs == []
  {
    hide Assembled, Heads, Length;
  }

  lemma ProperLocal(b: Book, run: seq<nat>)
    ensures Proper(b, Local(b, run))
  {
    hide *;
    LocalIs(b, run);
    BuiltProper(b, run, Numbers1(|run|));
  }

  /** The first section of a part has a title: nothing is continued. */
  lemma StandsApart(b: Book, m: Model, k: nat, depth: nat)
    requires Proper(b, m) && m.secs != []
    ensures PartOf(b, m).sections != [] && ShapeOf(PartOf(b, m), k, depth) == Ok(Apart)
  {
    hide *;
    var p := PartOf(b, m);
    PartFields(b, m);
    AssembledIs(b, m);
    ProperParts(b, m);
    FirstTitle(m, p, m.secs[0]);
    ApartWhen(p, k, depth, m);
  }

  lemma FirstTitle(m: Model, p: Part, s: Section)
    requires Titled(m, s) && p.heads == Heads(m.paras)
    ensures Extensible(s) && Elems(s) != [] && IsHeading(p, Elems(s)[0])
  {
    hide Heads;
    HeadsIs(m, s.elements.value[0], p);
  }

  lemma ApartWhen(p: Part, k: nat, depth: nat, m: Model)
    requires |p.sections| > 1 && p.sections[0].elements == Some(Pointers(|p.sections| - 1))
    requires Extensible(p.sections[1]) && Elems(p.sections[1]) != [] && IsHeading(p, Elems(p.sections[1])[0])
    ensures ShapeOf(p, k, depth) == Ok(Apart)
  {
    assert RootElems(p)[0] == Sec(1);
    if depth > 0 { assert ChainFrom(p, 1, depth) == Ok(Apart); }
  }

  function Aparts(n: nat): (r: seq<Shape>)
    ensures |r| == n && forall k :: 0 <= k < n ==> r[k] == Apart
  {
    seq(n, _ => Apart)
  }

  lemma {:induction false} AllApart(b: Book, runs: seq<seq<nat>>, j: nat)
    requires j <= |runs|
    ensures |Parts(b, runs)| == |runs|
    ensures PlanTo(Parts(b, runs), j).Ok? && PlanTo(Parts(b, runs), j).value.shapes == Aparts(j)
    decreases j
  {
    hide *;
    var parts := Parts(b, runs);
    PartsSize(b, runs);
    if j == 0 {
      NoPlanYet(parts);
    } else {
      AllApart(b, runs, j - 1);
      PartIs(b, runs, j - 1);
      var m := Local(b, runs[j - 1]);
      ProperLocal(b, runs[j - 1]);
      PartFields(b, m);
      AssembledIs(b, m);
      var depth := |PlanTo(parts, j - 1).value.open|;
      if m.secs != [] { StandsApart(b, m, j - 1, depth); }
      ApartNext(parts, j);
      assert Aparts(j - 1) + [Apart] == Aparts(j);
    }
  }

  lemma PartsSize(b: Book, runs: seq<seq<nat>>)
    ensures |Parts(b, runs)| == |runs|
  {}

  lemma NoPlanYet(parts: seq<Part>)
    ensures PlanTo(parts, 0).Ok? && PlanTo(parts, 0).value.shapes == [] == Aparts(0)
  {}

  lemma ApartNext(parts: seq<Part>, j: nat)
    requires 0 < j <= |parts| && PlanTo(parts, j - 1).Ok?
    requires parts[j - 1].sections != [] ==>
             ShapeOf(parts[j - 1], j - 1, |PlanTo(parts, j - 1).value.open|) == Ok(Apart)
    ensures PlanTo(parts, j).Ok? && PlanTo(parts, j).value.shapes == PlanTo(parts, j - 1).value.shapes + [Apart]
  {
    hide ShapeOf, NextOpen;
  }

  lemma ApartPlanned(b: Book, runs: seq<seq<nat>>, j: nat)
    requires j <= |runs|
    ensures Planned(Parts(b, runs), Aparts(|runs|), j)
  {
    hide *;
    AllApart(b, runs, j);
    PartsSize(b, runs);
    assert Aparts(|runs|)[..j] == Aparts(j);
    PlannedWhen(Parts(b, runs), Aparts(|runs|), j);
  }

  lemma PlannedWhen(parts: seq<Part>, shapes: seq<Shape>, j: nat)
    requires j <= |parts| == |shapes| && PlanTo(parts, j).Ok? && PlanTo(parts, j).value.shapes == shapes[..j]
    ensures Planned(parts, shapes, j)
  {
    hide PlanTo;
  }

  // Where a part goes.

  /** The merge's shift and the generator's place are the same. */
  predicate SamePlace(a: Shift, c: Shift) {
    a.start == c.start && a.ptr == c.ptr && a.secBase == c.secBase && a.secDrop == c.secDrop
  }

  lemma LengthIs(b: Book, run: seq<nat>)
    requires GoodBook(b)
    ensures Length(b, Local(b, run).content) == Local(b, run).end
  {
    hide *;
    LocalIs(b, run);
    BuiltMeasures(b, run, Numbers1(|run|));
    MeasuresParts(b, Local(b, run).content, Local(b, run).end);
  }

  lemma MeasuresParts(b: Book, s: Text, n: nat)
    requires Measures(b, s, n)
    ensures Length(b, s) == n
  {}

  ghost predicate Reaches(parts: seq<Part>, shapes: seq<Shape>, sep: nat, j: nat, g: Model)
    requires 0 < j <= |parts| == |shapes|
  {
    && CharTo(parts, sep, j) == g.end + sep && BasesTo(parts, j) == Bases(|g.paras|, |g.tables|, |g.figures|, 0)
    && SecsTo(parts, shapes, j) == 1 + |g.secs| && CharTo(parts, sep, j - 1) + parts[j - 1].length == g.end
  }

  lemma ReachNext(parts: seq<Part>, shapes: seq<Shape>, sep: nat, j: nat)
    requires j < |parts| == |shapes| && shapes[j] == Apart
    ensures var p, ptr := parts[j], BasesTo(parts, j);
            && CharTo(parts, sep, j + 1) == CharTo(parts, sep, j) + p.length + sep
            && BasesTo(parts, j + 1) == Bases(ptr.paragraphs + |p.paragraphs|, ptr.tables + |p.tables|,
                                              ptr.figures + |p.figures|, ptr.pairs + |p.pairs|)
            && SecsTo(parts, shapes, j + 1) == SecsTo(parts, shapes, j)
                                             + if p.sections == [] then 0 else |p.sections| - 1
    ensures CharTo(parts, sep, 0) == 0 && BasesTo(parts, 0) == Bases(0, 0, 0, 0) && SecsTo(parts, shapes, 0) == 1
  {}

  lemma {:induction false} PartsReach(b: Book, runs: seq<seq<nat>>, j: nat)
    requires GoodBook(b) && 0 < j <= |runs| && forall k :: 0 <= k < |runs| ==> runs[k] != []
    ensures |Parts(b, runs)| == |runs| && Reaches(Parts(b, runs), Aparts(|runs|), Sep(b), j, Whole(b, runs, j))
    decreases j
  {
    hide *;
    var parts, shapes, m := Parts(b, runs), Aparts(|runs|), Local(b, runs[j - 1]);
    PartsSize(b, runs);
    PartIs(b, runs, j - 1);
    PartFields(b, m);
    AssembledIs(b, m);
    LengthIs(b, runs[j - 1]);
    ReachNext(parts, shapes, Sep(b), j - 1);
    WholeNext(b, runs, j - 1);
    var f := Original(runs[j - 1]);
    RenumberedIs(m, f);
    LocalPages(b, runs[j - 1]);
    var g, h := Whole(b, runs, j - 1), Renumbered(m, f);
    JoinIs(b, g, h);
    NumberedSizes(m, f);
    if j == 1 {
      WholeNone(b, runs);
      NonePages();
    } else {
      PartsReach(b, runs, j - 1);
      ReachParts(parts, shapes, Sep(b), j - 1, g);
      SomePages(b, runs, j - 1);
      AfterIs(b, g);
      ListSizes(AfterModel(b, g), h);
    }
    ReachFrom(parts, shapes, Sep(b), j, Whole(b, runs, j));
  }

  lemma NumberedSizes(m: Model, f: int -> int)
    ensures |Renumbered(m, f).paras| == |m.paras| && |Renumbered(m, f).tables| == |m.tables|
    ensures |Renumbered(m, f).figures| == |m.figures| && |Renumbered(m, f).pages| == |m.pages|
  {}

  lemma ReachParts(parts: seq<Part>, shapes: seq<Shape>, sep: nat, j: nat, g: Model)
    requires 0 < j <= |parts| == |shapes| && Reaches(parts, shapes, sep, j, g)
    ensures CharTo(parts, sep, j) == g.end + sep && BasesTo(parts, j) == Bases(|g.paras|, |g.tables|, |g.figures|, 0)
    ensures SecsTo(parts, shapes, j) == 1 + |g.secs| && CharTo(parts, sep, j - 1) + parts[j - 1].length == g.end
  {}

  lemma ReachFrom(parts: seq<Part>, shapes: seq<Shape>, sep: nat, j: nat, g: Model)
    requires 0 < j <= |parts| == |shapes|
    requires CharTo(parts, sep, j) == g.end + sep && BasesTo(parts, j) == Bases(|g.paras|, |g.tables|, |g.figures|, 0)
    requires SecsTo(parts, shapes, j) == 1 + |g.secs| && CharTo(parts, sep, j - 1) + parts[j - 1].length == g.end
    ensures Reaches(parts, shapes, sep, j, g)
  {}

  /** Part j is shifted to where it stands among the pages together. */
  lemma ShiftsThere(b: Book, runs: seq<seq<nat>>, j: nat)
    requires GoodBook(b) && j < |runs| && forall k :: 0 <= k < |runs| ==> runs[k] != []
    ensures |Parts(b, runs)| == |runs|
    ensures var sh, g := ShiftOf(Parts(b, runs), Aparts(|runs|), Sep(b), j), Whole(b, runs, j);
            && SamePlace(sh, AfterModel(b, g)) && sh.k == j && sh.secBase == 1 + |g.secs| && sh.secDrop == 0
            && (j == 0 ==> Still(sh) && sh.prevEnd == 0)
            && (j > 0 ==> sh.prevEnd == g.end && sh.start == sh.prevEnd + Sep(b))
  {
    hide *;
    var parts, shapes := Parts(b, runs), Aparts(|runs|);
    PartsSize(b, runs);
    ShiftIs(parts, shapes, Sep(b), j);
    DropNone();
    if j == 0 {
      WholeNone(b, runs);
      ReachNext(parts, shapes, Sep(b), 0);
      AfterNone(b);
      NoneIs();
      StillWhen(ShiftOf(parts, shapes, Sep(b), j));
    } else {
      PartsReach(b, runs, j);
      ReachParts(parts, shapes, Sep(b), j, Whole(b, runs, j));
      SomePages(b, runs, j);
      AfterIs(b, Whole(b, runs, j));
    }
    SameWhen(ShiftOf(parts, shapes, Sep(b), j), AfterModel(b, Whole(b, runs, j)));
  }

  lemma DropNone()
    ensures SecDrop(Apart) == 0
  {}

  lemma AfterNone(b: Book)
    ensures AfterModel(b, NONE) == Shift(0, 0, 0, Bases(0, 0, 0, 0), 1, 0)
  {}

  lemma StillWhen(sh: Shift)
    requires sh.start == 0 && sh.ptr == Bases(0, 0, 0, 0) && sh.secBase == 1 && sh.secDrop == 0
    ensures Still(sh)
  {}

  lemma SameWhen(a: Shift, c: Shift)
    requires a.start == c.start && a.ptr == c.ptr && a.secBase == c.secBase && a.secDrop == c.secDrop
    ensures SamePlace(a, c)
  {}
}
