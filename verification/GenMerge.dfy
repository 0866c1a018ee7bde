/**
 * Generating and merging commute (internal/docgen/docgen.go:186-309, internal/merge/di.go:24-122, check.go:326-374):
 * the results of consecutive parts of a document, each numbering its pages from 1, merge into the result of all the
 * pages together.
 */
module GenMerge {
  import opened Sections
  import opened Forest
  import opened Lead
  import opened Fold
  import opened Renumber
  import opened Incremental
  import opened Document
  import opened Deferred
  import opened Merger
  import opened Acceptance
  import opened TextUnits
  import References
  import PageMap
  import opened Generate
  import opened GenJoin
  import opened GenRuns
  import opened GenProper
  import opened GenParts
  import opened GenTable

  // The whole.

  /** Every page of the part is blank. */
  predicate AllBlank(b: Book, run: seq<nat>) { forall i :: 0 <= i < |run| ==> Blank(b, run[i]) }

  lemma {:induction false} BlankSections(b: Book, pages: seq<nat>, nums: seq<int>)
    requires |nums| == |pages|
    ensures Built(b, pages, nums).secs == [] <==> AllBlank(b, pages)
    ensures AllBlank(b, pages) && pages != [] ==> Built(b, pages, nums).end == (|pages| - 1) * Sep(b)
    decreases |pages|
  {
    hide *;
    if pages == [] {
      assert nums == [];
      BuiltNone(b);
      NoneIs();
      NoneBlank(b);
    } else {
      var n := |pages| - 1;
      var g, h := Built(b, pages[..n], nums[..n]), Single(b, pages[n], nums[n]);
      BuiltLast(b, pages, nums);
      BlankSections(b, pages[..n], nums[..n]);
      BuiltPages(b, pages[..n], nums[..n]);
      OnePage(b, pages[n], nums[n]);
      BlankFront(b, pages);
      if n == 0 {
        assert pages[..n] == [];
        NoneBlank(b);
      }
      if Blank(b, pages[n]) { BlankIs(b, pages[n], nums[n]); } else { SingleIs(b, pages[n], nums[n]); }
      JoinIs(b, g, h);
      ListSizes(AfterModel(b, g), h);
      if g.pages != [] { AfterIs(b, g); }
      EmptySum(g.secs, h.secs, MovedSecs(AfterModel(b, g), h.secs));
      MoreBlank(n, Sep(b));
    }
  }

  lemma NoneBlank(b: Book)
    ensures AllBlank(b, [])
  {}

  lemma BlankFront(b: Book, pages: seq<nat>)
    requires pages != []
    ensures AllBlank(b, pages) <==> AllBlank(b, pages[..|pages| - 1]) && Blank(b, pages[|pages| - 1])
  {
    hide Blank;
    var n := |pages| - 1;
    if AllBlank(b, pages[..n]) && Blank(b, pages[n]) {
      forall i | 0 <= i < |pages| ensures Blank(b, pages[i]) {
        if i < n { assert pages[..n][i] == pages[i]; }
      }
    }
  }

  lemma EmptySum<T>(a: seq<T>, h: seq<T>, more: seq<T>)
    requires |more| == |h|
    ensures a + more == [] <==> a == [] && h == []
  {}

  lemma MoreBlank(n: nat, sep: nat)
    ensures n > 0 ==> (n - 1) * sep + sep == n * sep
  {}

  lemma SizeZero(n: nat, sep: nat)
    requires n > 0 && sep > 0
    ensures (n - 1) * sep == 0 <==> n == 1
  {}

  /** A part is one the merge takes beside others with sections, unless it has several pages and all are blank. */
  lemma RootTaken(b: Book, run: seq<nat>)
    requires GoodBook(b) && run != []
    ensures var p := PartOf(b, Local(b, run));
            && (p.sections == [] <==> AllBlank(b, run))
            && (RootCovers(p) <==> !(AllBlank(b, run) && |run| > 1))
  {
    hide *;
    var m := Local(b, run);
    var p := PartOf(b, m);
    PartFields(b, m);
    AssembledIs(b, m);
    LocalIs(b, run);
    LengthIs(b, run);
    BlankSections(b, run, Numbers1(|run|));
    SepIs(b);
    SizeZero(|run|, Sep(b));
    RootCoversIs(p);
    if m.secs != [] {
      ProperLocal(b, run);
      ProperParts(b, m);
      RunsEnd(m.covered, Sep(b));
      RunsWithin(m.covered, Sep(b), m.end);
      FieldsAre(Pointers(|m.secs|), Runs(m.covered, Sep(b)), p.sections[0]);
    }
  }

  lemma RootCoversIs(p: Part)
    ensures p.sections == [] ==> (RootCovers(p) <==> p.length == 0)
    ensures p.sections != [] && Spans(p.sections[0]) != [] ==>
             (RootCovers(p) <==> Within(Spans(p.sections[0]), p.length))
  {}

  lemma SectionsTaken(b: Book, runs: seq<seq<nat>>)
    requires GoodBook(b) && forall k :: 0 <= k < |runs| ==> runs[k] != []
    ensures SectionsAgree(Parts(b, runs)) <==>
              || (forall k :: 0 <= k < |runs| ==> AllBlank(b, runs[k]))
              || (forall k :: 0 <= k < |runs| ==> !(AllBlank(b, runs[k]) && |runs[k]| > 1))
  {
    hide *;
    PartsSize(b, runs);
    var parts := Parts(b, runs);
    forall k | 0 <= k < |runs|
      ensures parts[k].sections == [] <==> AllBlank(b, runs[k])
      ensures RootCovers(parts[k]) <==> !(AllBlank(b, runs[k]) && |runs[k]| > 1)
    {
      PartIs(b, runs, k);
      RootTaken(b, runs[k]);
    }
    AgreeIs(parts);
  }

  lemma AgreeIs(parts: seq<Part>)
    ensures SectionsAgree(parts) <==>
              || (forall k :: 0 <= k < |parts| ==> parts[k].sections == [])
              || (forall k :: 0 <= k < |parts| ==> RootCovers(parts[k]))
    ensures NoSections(parts) <==> forall k :: 0 <= k < |parts| ==> parts[k].sections == []
  {
    hide RootCovers;
  }

  // Its sections are a tree.

  function LeavesOf(es: seq<Elem>): (r: Forest)
    requires forall i :: 0 <= i < |es| ==> es[i].Leaf?
    ensures |r| == |es| && forall i :: 0 <= i < |es| ==> r[i] == L(es[i].m, es[i].n)
  {
    seq(|es|, i requires 0 <= i < |es| => L(es[i].m, es[i].n))
  }

  lemma {:induction false} LeafForest(t: seq<Section>, f: Forest)
    requires forall i :: 0 <= i < |f| ==> f[i].L?
    ensures Reps(t, f) && Ids(f) == []
    decreases |f|
  {
    if f != [] { LeafForest(t, f[1..]); }
  }

  lemma {:induction false} LeafTop(es: seq<Elem>)
    requires forall i :: 0 <= i < |es| ==> es[i].Leaf?
    ensures Top(LeavesOf(es)) == es
  {
    TopAt(LeavesOf(es));
  }

  /** One section for each page, from section i on. */
  function PageForest(secs: seq<Section>, i: nat): (r: Forest)
    requires forall n :: 0 <= n < |secs| ==> Positive(secs[n])
    decreases |secs|
  {
    if secs == [] then []
    else
      assert Positive(secs[0]);
      [S(i, LeavesOf(Elems(secs[0])))] + PageForest(secs[1..], i + 1)
  }

  lemma {:induction false} PageReps(t: seq<Section>, secs: seq<Section>, i: nat)
    requires forall n :: 0 <= n < |secs| ==> Positive(secs[n])
    requires i + |secs| <= |t| && forall n :: 0 <= n < |secs| ==> t[i + n] == secs[n]
    ensures Reps(t, PageForest(secs, i))
    ensures |Top(PageForest(secs, i))| == |secs| == |Ids(PageForest(secs, i))|
    ensures forall n :: 0 <= n < |secs| ==>
             Top(PageForest(secs, i))[n] == Sec(i + n) && Ids(PageForest(secs, i))[n] == i + n
    decreases |secs|
  {
    if secs != [] {
      hide Positive, LeavesOf;
      var f := PageForest(secs, i);
      var kids := KidsOf(t, secs[0]);
      assert f == [S(i, kids)] + PageForest(secs[1..], i + 1);
      assert forall n :: 0 <= n < |secs| - 1 ==> secs[1..][n] == secs[n + 1];
      assert f[1..] == PageForest(secs[1..], i + 1);
      forall n | 0 <= n < |secs[1..]| ensures t[i + 1 + n] == secs[1..][n] { assert t[i + (n + 1)] == secs[n + 1]; }
      PageReps(t, secs[1..], i + 1);
      assert t[i + 0] == secs[0];
      PageJoin(t, i, kids, PageForest(secs[1..], i + 1), |secs|);
    }
  }

  lemma KidsOf(t: seq<Section>, s: Section) returns (kids: Forest)
    requires Positive(s)
    ensures kids == LeavesOf(Elems(s)) && Reps(t, kids) && Ids(kids) == [] && Top(kids) == Elems(s)
  {
    kids := LeavesOf(Elems(s));
    LeafForest(t, kids);
    LeafTop(Elems(s));
  }

  lemma PageJoin(t: seq<Section>, i: nat, kids: Forest, rest: Forest, n: nat)
    requires i < |t| && Elems(t[i]) == Top(kids) && Reps(t, kids) && Ids(kids) == [] && Reps(t, rest)
    requires |Top(rest)| == n - 1 == |Ids(rest)|
    requires forall k :: 0 <= k < n - 1 ==> Top(rest)[k] == Sec(i + 1 + k) && Ids(rest)[k] == i + 1 + k
    ensures var f := [S(i, kids)] + rest;
            && Reps(t, f) && |Top(f)| == n == |Ids(f)|
            && forall k :: 0 <= k < n ==> Top(f)[k] == Sec(i + k) && Ids(f)[k] == i + k
  {
    var f := [S(i, kids)] + rest;
    assert f[1..] == rest && f[0] == S(i, kids);
    assert Top(f) == [Sec(i)] + Top(rest);
    assert Ids(f) == ([i] + []) + Ids(rest);
    hide Top, Ids, Reps;
  }

  lemma PageTree(b: Book, run: seq<nat>) returns (f: Forest)
    ensures IsTree(PartOf(b, Local(b, run)), f)
  {
    hide *;
    var m := Local(b, run);
    var p := PartOf(b, m);
    PartFields(b, m);
    AssembledIs(b, m);
    ProperLocal(b, run);
    ProperParts(b, m);
    forall i | 0 <= i < |m.secs| ensures Positive(m.secs[i]) { TitledPositive(m, m.secs[i]); }
    if m.secs == [] {
      f := [];
      NoTree(p);
    } else {
      f := PageForest(m.secs, 1);
      PageReps(p.sections, m.secs, 1);
      TreeOverPages(p, f, |m.secs|);
    }
  }

  lemma NoTree(p: Part)
    requires p.sections == []
    ensures IsTree(p, [])
  {}

  lemma TreeOverPages(p: Part, f: Forest, n: nat)
    requires p.sections != [] && |p.sections| == n + 1
    requires p.sections[0].elements == Some(Pointers(n)) && Reps(p.sections, f)
    requires |Top(f)| == n == |Ids(f)| && forall k :: 0 <= k < n ==> Top(f)[k] == Sec(1 + k) && Ids(f)[k] == 1 + k
    ensures IsTree(p, f)
  {
    hide Reps, Top, Ids, Pointers;
    assert Top(f) == Pointers(n);
    CountsUp(Ids(f), n);
  }

  lemma CountsUp(ids: seq<nat>, n: nat)
    requires |ids| == n && forall k :: 0 <= k < n ==> ids[k] == 1 + k
    ensures Numbers(ids, 1, n + 1)
  {
    forall x | 1 <= x < n + 1 ensures x in ids { assert ids[x - 1] == x; }
  }

  lemma LocalSound(b: Book, run: seq<nat>)
    requires GoodBook(b)
    ensures Sound(PartOf(b, Local(b, run)))
  {
    hide *;
    var m := Local(b, run);
    var p := PartOf(b, m);
    PartFields(b, m);
    AssembledIs(b, m);
    ProperLocal(b, run);
    ProperParts(b, m);
    LengthIs(b, run);
    if m.secs != [] {
      RunsWithin(m.covered, Sep(b), m.end);
      FieldsAre(Pointers(|m.secs|), Runs(m.covered, Sep(b)), p.sections[0]);
      PointersHold(p, |m.secs|);
      forall i | 0 < i < |p.sections|
        ensures HoldsItems(p, Elems(p.sections[i])) && Within(Spans(p.sections[i]), p.length)
      {
        assert p.sections[1 + (i - 1)] == m.secs[i - 1];
        TitledHolds(m, m.secs[i - 1], p);
      }
    }
    SoundWhen(p);
  }

  lemma PointersHold(p: Part, n: nat)
    ensures HoldsItems(p, Pointers(n))
  {}

  lemma TitledHolds(m: Model, s: Section, p: Part)
    requires Titled(m, s) && |p.paragraphs| == |m.paras| && |p.tables| == |m.tables| && |p.figures| == |m.figures|
    ensures HoldsItems(p, Elems(s)) && Within(Spans(s), m.end)
  {
    forall n | 0 <= n < |Elems(s)| && Elems(s)[n].Leaf? ensures Elems(s)[n].n < Count(p, Elems(s)[n].m) {
      assert There(m, s.elements.value[n]);
    }
  }

  lemma SoundWhen(p: Part)
    requires p.sections != [] ==> HoldsItems(p, Elems(p.sections[0])) && Within(Spans(p.sections[0]), p.length)
    requires forall i :: 0 < i < |p.sections| ==>
               HoldsItems(p, Elems(p.sections[i])) && Within(Spans(p.sections[i]), p.length)
    ensures Sound(p)
  {
    hide HoldsItems, Within;
  }

  lemma OutputNone(parts: seq<Part>, shapes: seq<Shape>, shs: seq<Shift>, folds: Folds)
    requires |parts| == |shapes| == |shs| && AllApt(shs, folds)
    requires forall k :: 0 <= k < |parts| ==> parts[k].sections == []
    ensures Output(parts, shapes, shs, folds) == []
  {}

  /** The merged sections, as they are written, are those of the pages together. */
  lemma SectionsMerged(b: Book, runs: seq<seq<nat>>)
    requires GoodBook(b) && forall k :: 0 <= k < |runs| ==> runs[k] != []
    ensures var parts, shapes, n := Parts(b, runs), Aparts(|runs|), |runs|;
            && |parts| == n && PlanTo(parts, n).Ok?
            && AllApt(Shifts(parts, shapes, Sep(b)), FoldsTo(parts, shapes, n))
            && Output(parts, shapes, Shifts(parts, shapes, Sep(b)), FoldsTo(parts, shapes, n))
                == Assembled(b, Whole(b, runs, n))
  {
    hide *;
    var parts, shapes, n := Parts(b, runs), Aparts(|runs|), |runs|;
    PartsSize(b, runs);
    AllApart(b, runs, n);
    ApartPlanned(b, runs, n);
    FirstApt(parts, shapes, Sep(b), n);
    SepIs(b);
    TableMerged(b, runs, n);
    TabledIs(b, Whole(b, runs, n));
    AssembledIs(b, Whole(b, runs, n));
    forall k | 0 <= k < n ensures parts[k].sections == [] <==> AllBlank(b, runs[k]) {
      PartIs(b, runs, k);
      RootTaken(b, runs[k]);
    }
    WholeIs(b, runs, n);
    BlankSections(b, PagesTo(runs, n), PagesTo(runs, n));
    BlankParts(b, runs, n);
    if k :| 0 <= k < n && parts[k].sections != [] {
      WritingIsGrowing(parts, shapes, Sep(b));
      TabledSome(b, Whole(b, runs, n));
    } else {
      OutputNone(parts, shapes, Shifts(parts, shapes, Sep(b)), FoldsTo(parts, shapes, n));
    }
  }

  lemma TabledSome(b: Book, m: Model)
    requires m.secs != []
    ensures Tabled(b, m) == Assembled(b, m)
  {
    hide Assembled;
  }

  lemma {:induction false} BlankParts(b: Book, runs: seq<seq<nat>>, j: nat)
    requires j <= |runs|
    ensures AllBlank(b, PagesTo(runs, j)) <==> forall k :: 0 <= k < j ==> AllBlank(b, runs[k])
    decreases j
  {
    hide *;
    NoPages(runs);
    NoneBlank(b);
    if j > 0 {
      PagesNext(runs, j - 1);
      BlankParts(b, runs, j - 1);
      BlankBoth(b, PagesTo(runs, j - 1), runs[j - 1]);
    }
  }

  lemma BlankBoth(b: Book, p: seq<nat>, q: seq<nat>)
    ensures AllBlank(b, p + q) <==> AllBlank(b, p) && AllBlank(b, q)
  {
    hide Blank;
    if AllBlank(b, p + q) {
      forall i | 0 <= i < |p| ensures Blank(b, p[i]) { assert (p + q)[i] == p[i]; }
      forall i | 0 <= i < |q| ensures Blank(b, q[i]) { assert (p + q)[|p| + i] == q[i]; }
    }
  }

  /**
   * For any pages in any number of parts: every part stands apart, and the merged result is, in its content, its
   * pages and their spans, its items, their pages and the paragraphs they point at, and its sections, the result of
   * all the pages together.
   */
  lemma MergingGenerates(b: Book, runs: seq<seq<nat>>)
    requires GoodBook(b) && runs != [] && forall k :: 0 <= k < |runs| ==> runs[k] != []
    ensures var parts, n := Parts(b, runs), |runs|;
            && |parts| == n && PlanTo(parts, n).Ok? && PlanTo(parts, n).value.shapes == Aparts(n)
            && AllApt(Shifts(parts, Aparts(n), Sep(b)), FoldsTo(parts, Aparts(n), n))
            && Merged(b, runs, Aparts(n)) == Generated(b, PagesTo(runs, n), PagesTo(runs, n))
  {
    hide *;
    var parts, n := Parts(b, runs), |runs|;
    PartsSize(b, runs);
    AllApart(b, runs, n);
    FirstApt(parts, Aparts(n), Sep(b), n);
    ItemsMerged(b, runs, Shifts(parts, Aparts(n), Sep(b)), n);
    ContentMerged(b, runs, n);
    SectionsMerged(b, runs);
    WholeIs(b, runs, n);
    MergedParts(b, runs, Aparts(n));
    GeneratedIs(b, PagesTo(runs, n), PagesTo(runs, n));
  }

  lemma GeneratedIs(b: Book, pages: seq<nat>, nums: seq<int>)
    requires |nums| == |pages|
    ensures var m := Built(b, pages, nums);
            Generated(b, pages, nums) == Result(m.content, m.pages, m.paras, m.tables, m.figures, Assembled(b, m))
  {
    hide Built, Assembled;
  }

  lemma MergedParts(b: Book, runs: seq<seq<nat>>, shapes: seq<Shape>)
    requires |shapes| == |runs| && PlanTo(Parts(b, runs), |runs|).Ok?
    requires AllApt(Shifts(Parts(b, runs), shapes, Sep(b)), FoldsTo(Parts(b, runs), shapes, |runs|))
    ensures |Texts(b, runs)| == |runs|
    ensures var parts := Parts(b, runs);
            var shs := Shifts(parts, shapes, Sep(b));
            var all := AllShown(b, runs, shs);
            Merged(b, runs, shapes) == Result(
              References.Merged(Texts(b, runs), [LF], |runs|),
              References.AllItems(PageLists(all), |runs|),
              References.AllItems(ParaLists(all), |runs|),
              References.AllItems(TableLists(all), |runs|),
              References.AllItems(FigureLists(all), |runs|),
              Output(parts, shapes, shs, FoldsTo(parts, shapes, |runs|)))
  {
    hide Parts, Shifts, AllShown, Output, FoldsTo, PlanTo, References.Merged, References.AllItems;
    hide PageLists, ParaLists, TableLists, FigureLists, Local;
  }

  /** The sections merge unless a part of several pages is all blank while another is not. */
  lemma GeneratedMerges(b: Book, runs: seq<seq<nat>>)
    requires GoodBook(b) && forall k :: 0 <= k < |runs| ==> runs[k] != []
    ensures Accepts(Parts(b, runs), Sep(b)) <==>
              || (forall k :: 0 <= k < |runs| ==> AllBlank(b, runs[k]))
              || (forall k :: 0 <= k < |runs| ==> !(AllBlank(b, runs[k]) && |runs[k]| > 1))
  {
    hide *;
    var parts := Parts(b, runs);
    PartsSize(b, runs);
    SectionsTaken(b, runs);
    AcceptsWhen(parts, Sep(b));
    if SectionsAgree(parts) {
      var forests := Forests(b, runs, |runs|);
      forall k | 0 <= k < |runs| ensures Sound(parts[k]) {
        PartIs(b, runs, k);
        LocalSound(b, runs[k]);
      }
      TreesMerge(parts, Sep(b), forests);
    }
  }

  lemma {:induction false} Forests(b: Book, runs: seq<seq<nat>>, j: nat) returns (forests: seq<Forest>)
    requires j <= |runs|
    ensures |Parts(b, runs)| == |runs| && |forests| == j && forall k :: 0 <= k < j ==>
             IsTree(Parts(b, runs)[k], forests[k])
    ensures j == |runs| ==> AllTrees(Parts(b, runs), forests)
    decreases j
  {
    hide *;
    PartsSize(b, runs);
    forests := [];
    if j > 0 {
      forests := Forests(b, runs, j - 1);
      PartIs(b, runs, j - 1);
      var f := PageTree(b, runs[j - 1]);
      forests := forests + [f];
    }
    if j == |runs| { TreesAre(Parts(b, runs), forests); }
  }

  lemma TreesAre(parts: seq<Part>, forests: seq<Forest>)
    requires |forests| == |parts| && forall k :: 0 <= k < |parts| ==> IsTree(parts[k], forests[k])
    ensures AllTrees(parts, forests)
  {}
}
