/**
 * Where the sections left open go stale (internal/merge/continue.go:262-267, 503-506): a part whose tree ends in a
 * section that cannot be extended is meant to close everything, and does not when its root keeps no element.
 */
module StaleOpen {
  import opened Sections
  import opened Forest
  import opened Lead
  import opened Renumber
  import opened Fold
  import opened Incremental
  import opened LeftOpen
  import opened Document
  import opened Closing
  import opened Merger
  import opened Acceptance
  import Orderly

  function P(n: nat): Elem { Leaf(Paragraphs, n) }

  function Sect(elems: seq<Elem>): Section { Section(Some(elems), Some([Span(0, 10)])) }

  /** A titled section, and in it another. */
  const FIRST := Part(
    [Sect([Sec(1)]), Sect([P(0), Sec(2)]), Sect([P(1)])], {0, 1}, 10, [[Span(0, 5)], [Span(5, 5)]], [], [], [])

  /** An untitled wrapper of untitled content, and in it a titled section that has no spans. */
  const SECOND := Part(
    [Sect([Sec(1)]), Sect([Sec(2), Sec(3)]), Sect([P(0)]), Section(Some([P(1)]), None)],
    {1}, 10, [[Span(0, 5)], [Span(5, 5)]], [], [], [])

  /** Untitled content. */
  const THIRD := Part([Sect([P(0)])], {}, 10, [[Span(0, 10)]], [], [], [])

  const PARTS := [FIRST, SECOND, THIRD]
  const SHAPES := [Apart, Chain(2, true), Moved]
  const FORESTS: seq<Forest> := [
    [S(1, [L(Paragraphs, 0), S(2, [L(Paragraphs, 1)])])],
    [S(1, [S(2, [L(Paragraphs, 0)]), S(3, [L(Paragraphs, 1)])])],
    [L(Paragraphs, 0)]]

  lemma PlanStep(parts: seq<Part>, j: nat, plan: Plan, s: Shape)
    requires j < |parts| && PlanTo(parts, j) == Ok(plan) && parts[j].sections != []
    requires ShapeOf(parts[j], j, |plan.open|) == Ok(s)
    ensures PlanTo(parts, j + 1) == Ok(Plan(plan.shapes + [s], NextOpen(parts[j], j, plan.open, s)))
  {}

  lemma NoPlan(parts: seq<Part>)
    ensures PlanTo(parts, 0) == Ok(Plan([], []))
  {}

  lemma FirstPath()
    ensures OpenPath(FIRST) == [1, 2]
  {
    assert Walk(FIRST.sections, [P(1)], [1, 2], 1) == [1, 2];
    assert Walk(FIRST.sections, [P(0), Sec(2)], [1], 2) == [1, 2] by { assert [1] + [2] == [1, 2]; }
    assert Walk(FIRST.sections, [Sec(1)], [], 3) == [1, 2] by { assert [] + [1] == [1]; }
    assert RootElems(FIRST) == [Sec(1)];
  }

  lemma FirstLeft()
    ensures FIRST.sections != [] && ShapeOf(FIRST, 0, 0) == Ok(Apart)
    ensures NextOpen(FIRST, 0, [], Apart) == [At(0, 1), At(0, 2)]
  {
    FirstPath();
    hide OpenPath, Walk;
    var path: seq<nat> := [1, 2];
    assert path[..1] == [1] && path[..1][..0] == [];
    assert Reopen(0, [], [], path[..1][..0]) == [];
    assert Reopen(0, [], [], path[..1]) == [At(0, 1)];
  }

  lemma SecondLeft()
    ensures SECOND.sections != [] && ShapeOf(SECOND, 1, 2) == Ok(Chain(2, true))
    ensures NextOpen(SECOND, 1, [At(0, 1), At(0, 2)], Chain(2, true)) == [At(0, 1), At(0, 2)]
  {
    assert RootElems(SECOND) == [Sec(1)];
    assert ChainFrom(SECOND, 2, 2) == Ok(Chain(2, true));
    assert ChainFrom(SECOND, 1, 2) == Ok(Chain(2, true));
    assert Walk(SECOND.sections, [Sec(2), Sec(3)], [1], 3) == [];
    assert Walk(SECOND.sections, [Sec(1)], [], 4) == [] by { assert [] + [1] == [1]; }
  }

  lemma ThirdLeft()
    ensures THIRD.sections != [] && ShapeOf(THIRD, 2, 2) == Ok(Moved)
    ensures NextOpen(THIRD, 2, [At(0, 1), At(0, 2)], Moved) == [At(0, 1), At(0, 2)]
  {
    assert RootElems(THIRD) == [P(0)];
  }

  lemma PartsAre()
    ensures |PARTS| == 3 && PARTS[0] == FIRST && PARTS[1] == SECOND && PARTS[2] == THIRD
    ensures |SHAPES| == 3 && SHAPES[0] == Apart && SHAPES[1] == Chain(2, true) && SHAPES[2] == Moved
    ensures [] + [Apart] == [Apart] && [Apart] + [Chain(2, true)] == [Apart, Chain(2, true)]
    ensures [Apart, Chain(2, true)] + [Moved] == SHAPES
  {}

  /** After the second part, whose last section cannot be extended, the first part's sections are still open. */
  lemma StillOpen()
    ensures PlanTo(PARTS, 1) == Ok(Plan([Apart], [At(0, 1), At(0, 2)]))
    ensures PlanTo(PARTS, 2) == Ok(Plan([Apart, Chain(2, true)], [At(0, 1), At(0, 2)]))
    ensures PlanTo(PARTS, 3) == Ok(Plan(SHAPES, [At(0, 1), At(0, 2)]))
  {
    hide *;
    PartsAre();
    NoPlan(PARTS);
    FirstLeft();
    SecondLeft();
    ThirdLeft();
    PlanStep(PARTS, 0, Plan([], []), Apart);
    PlanStep(PARTS, 1, Plan([Apart], [At(0, 1), At(0, 2)]), Chain(2, true));
    PlanStep(PARTS, 2, Plan([Apart, Chain(2, true)], [At(0, 1), At(0, 2)]), Moved);
  }

  ghost predicate Has(t: seq<Section>, elems: seq<seq<Elem>>) {
    |t| == |elems| && forall i :: 0 <= i < |t| ==> t[i].elements == Some(elems[i])
  }

  lemma Shifts(sep: nat)
    ensures var sh := ShiftOf(PARTS, SHAPES, sep, 0); sh.ptr.paragraphs == 0 && sh.secBase == 1 && sh.secDrop == 0
    ensures var sh := ShiftOf(PARTS, SHAPES, sep, 1); sh.ptr.paragraphs == 2 && sh.secBase == 3 && sh.secDrop == 2
    ensures var sh := ShiftOf(PARTS, SHAPES, sep, 2); sh.ptr.paragraphs == 4 && sh.secBase == 4 && sh.secDrop == 0
  {
    assert SecsTo(PARTS, SHAPES, 0) == 1;
    assert SecsTo(PARTS, SHAPES, 1) == 3;
    assert SecsTo(PARTS, SHAPES, 2) == 4;
    assert BasesTo(PARTS, 0).paragraphs == 0;
    assert BasesTo(PARTS, 1).paragraphs == 2;
    assert BasesTo(PARTS, 2).paragraphs == 4;
  }

  lemma RenOne(sh: Shift, e: Elem)
    ensures RenElems(sh, [e]) == [RenElem(sh, e)] && RenElems(sh, []) == []
  {
    assert [e][1..] == [];
  }

  lemma RenTwo(sh: Shift, a: Elem, b: Elem)
    ensures RenElems(sh, [a, b]) == [RenElem(sh, a), RenElem(sh, b)]
  {
    assert [a, b][1..] == [b];
    RenOne(sh, b);
  }

  lemma FirstTable(t: seq<Section>, sh: Shift)
    requires t == [Section(None, None)] && sh.prevEnd <= sh.start
    requires sh.ptr.paragraphs == 0 && sh.secBase == 1 && sh.secDrop == 0
    ensures Has(AddPart(t, [], FIRST, Apart, sh), [[Sec(1)], [P(0), Sec(2)], [P(1)]])
  {
    hide Append, Shifted;
    RenOne(sh, Sec(1));
    RenTwo(sh, P(0), Sec(2));
    RenOne(sh, P(1));
    hide RenElems;
    var r := AddPart(t, [], FIRST, Apart, sh);
    assert r[0] == GrowRoot(t[0], FIRST, Apart, 0, sh);
    assert r[1] == RenSection(sh, FIRST.sections[1]) && r[2] == RenSection(sh, FIRST.sections[2]);
    assert [] + [Sec(1)] == [Sec(1)];
  }

  lemma SecondTable(t: seq<Section>, sh: Shift)
    requires Has(t, [[Sec(1)], [P(0), Sec(2)], [P(1)]]) && sh.prevEnd <= sh.start
    requires sh.ptr.paragraphs == 2 && sh.secBase == 3 && sh.secDrop == 2
    ensures Has(AddPart(t, [1, 2], SECOND, Chain(2, true), sh),
                [[Sec(1)], [P(0), Sec(2), Sec(3)], [P(1), P(2)], [P(3)]])
  {
    hide Append, Shifted;
    var s := Chain(2, true);
    RenOne(sh, Sec(3));
    RenOne(sh, P(0));
    RenOne(sh, P(1));
    assert ShareElems(SECOND, s, 2, 0) == [];
    assert ShareElems(SECOND, s, 2, 1) == [Sec(3)];
    assert ShareElems(SECOND, s, 2, 2) == [P(0)];
    hide RenElems, ShareElems;
    var r := AddPart(t, [1, 2], SECOND, s, sh);
    assert Find([1, 2], 1) == 0 && Find([1, 2], 2) == 1;
    assert r[0] == GrowRoot(t[0], SECOND, s, 2, sh);
    assert r[1] == Grow(t[1], RenElems(sh, ShareElems(SECOND, s, 2, 1)), sh, ShareSpans(SECOND, s, 1));
    assert r[2] == Grow(t[2], RenElems(sh, ShareElems(SECOND, s, 2, 2)), sh, ShareSpans(SECOND, s, 2));
    assert r[3] == RenSection(sh, SECOND.sections[3]);
    assert [Sec(1)] + [] == [Sec(1)] && [P(0), Sec(2)] + [Sec(3)] == [P(0), Sec(2), Sec(3)];
    assert [P(1)] + [P(2)] == [P(1), P(2)];
    assert r[0].elements == Some([Sec(1)]);
    assert r[1].elements == Some([P(0), Sec(2), Sec(3)]);
    assert r[2].elements == Some([P(1), P(2)]);
    assert r[3].elements == Some([P(3)]);
  }

  lemma ThirdTable(t: seq<Section>, sh: Shift)
    requires Has(t, [[Sec(1)], [P(0), Sec(2), Sec(3)], [P(1), P(2)], [P(3)]]) && sh.prevEnd <= sh.start
    requires sh.ptr.paragraphs == 4 && sh.secBase == 4 && sh.secDrop == 0
    ensures Has(AddPart(t, [1, 2], THIRD, Moved, sh), [[Sec(1)], [P(0), Sec(2), Sec(3)], [P(1), P(2), P(4)], [P(3)]])
  {
    hide Append, Shifted;
    RenOne(sh, P(0));
    assert ShareElems(THIRD, Moved, 2, 0) == [] && ShareElems(THIRD, Moved, 2, 1) == [];
    assert ShareElems(THIRD, Moved, 2, 2) == [P(0)];
    hide RenElems, ShareElems;
    var r := AddPart(t, [1, 2], THIRD, Moved, sh);
    assert Find([1, 2], 1) == 0 && Find([1, 2], 2) == 1;
    assert r[0] == GrowRoot(t[0], THIRD, Moved, 2, sh);
    assert r[1] == Grow(t[1], RenElems(sh, []), sh, ShareSpans(THIRD, Moved, 1));
    assert r[2] == Grow(t[2], RenElems(sh, [P(0)]), sh, ShareSpans(THIRD, Moved, 2));
    assert r[3] == t[3];
    assert [Sec(1)] + [] == [Sec(1)] && [P(0), Sec(2), Sec(3)] + [] == [P(0), Sec(2), Sec(3)];
    assert [P(1), P(2)] + [P(4)] == [P(1), P(2), P(4)];
    assert r[0].elements == Some([Sec(1)]);
    assert r[1].elements == Some([P(0), Sec(2), Sec(3)]);
    assert r[2].elements == Some([P(1), P(2), P(4)]);
  }

  lemma OpenAre(sep: nat)
    ensures PlanTo(PARTS, 1).Ok? && PlanTo(PARTS, 2).Ok? && PlanTo(PARTS, 3).Ok? && PlanTo(PARTS, 0).Ok?
    ensures OpenIds(PARTS, SHAPES, 0) == [] && OpenIds(PARTS, SHAPES, 1) == [1, 2]
    ensures OpenIds(PARTS, SHAPES, 2) == [1, 2]
  {
    StillOpen();
    NoPlan(PARTS);
    Shifts(sep);
    hide PlanTo;
    assert Where(PARTS, SHAPES, At(0, 1)) == 1 && Where(PARTS, SHAPES, At(0, 2)) == 2;
  }

  lemma TableStep(sep: nat, j: nat)
    requires j < 3 && PlanTo(PARTS, j).Ok? && PlanTo(PARTS, j + 1).Ok? && PARTS[j].sections != []
    ensures TableTo(PARTS, SHAPES, sep, j + 1) == AddPart(
              TableTo(PARTS, SHAPES, sep, j), OpenIds(PARTS, SHAPES, j), PARTS[j], SHAPES[j],
              ShiftOf(PARTS, SHAPES, sep, j))
  {
    hide PlanTo, AddPart, OpenIds, ShiftOf;
  }

  lemma LastTable(sep: nat)
    ensures PlanTo(PARTS, 3).Ok?
    ensures Has(TableTo(PARTS, SHAPES, sep, 3), [[Sec(1)], [P(0), Sec(2), Sec(3)], [P(1), P(2), P(4)], [P(3)]])
  {
    hide *;
    OpenAre(sep);
    PartsAre();
    Shifts(sep);
    FirstLeft();
    SecondLeft();
    ThirdLeft();
    TableStep(sep, 0);
    TableStep(sep, 1);
    TableStep(sep, 2);
    EmptyTable(sep);
    ShiftForward(sep, 0);
    ShiftForward(sep, 1);
    ShiftForward(sep, 2);
    FirstTable(TableTo(PARTS, SHAPES, sep, 0), ShiftOf(PARTS, SHAPES, sep, 0));
    SecondTable(TableTo(PARTS, SHAPES, sep, 1), ShiftOf(PARTS, SHAPES, sep, 1));
    ThirdTable(TableTo(PARTS, SHAPES, sep, 2), ShiftOf(PARTS, SHAPES, sep, 2));
  }

  lemma EmptyTable(sep: nat)
    ensures PlanTo(PARTS, 0).Ok? && TableTo(PARTS, SHAPES, sep, 0) == [Section(None, None)]
  {}

  lemma ShiftForward(sep: nat, k: nat)
    requires k < 3
    ensures ShiftOf(PARTS, SHAPES, sep, k).prevEnd <= ShiftOf(PARTS, SHAPES, sep, k).start
  {}

  /** The parts' trees, and the merged one: the third part's content comes before the second part's title. */
  const MERGED: Forest := [
    S(1, [L(Paragraphs, 0), S(2, [L(Paragraphs, 1), L(Paragraphs, 2), L(Paragraphs, 4)]), S(3, [L(Paragraphs, 3)])])]

  // A forest, an item at a time.

  lemma NoItem(t: seq<Section>)
    ensures Top([]) == [] && Leaves([]) == [] && Ids([]) == [] && Reps(t, [])
  {}

  lemma LeafThen(t: seq<Section>, n: nat, rest: Forest)
    requires Reps(t, rest)
    ensures var f := [L(Paragraphs, n)] + rest;
            && Reps(t, f) && Top(f) == [P(n)] + Top(rest) && Leaves(f) == [P(n)] + Leaves(rest) && Ids(f) == Ids(rest)
  {
    var f := [L(Paragraphs, n)] + rest;
    assert f[1..] == rest;
  }

  lemma SectionThen(t: seq<Section>, i: nat, kids: Forest, rest: Forest)
    requires Reps(t, rest) && Reps(t, kids) && i < |t| && Elems(t[i]) == Top(kids)
    ensures var f := [S(i, kids)] + rest;
            && Reps(t, f) && Top(f) == [Sec(i)] + Top(rest) && Leaves(f) == Leaves(kids) + Leaves(rest)
            && Ids(f) == [i] + Ids(kids) + Ids(rest)
  {
    var f := [S(i, kids)] + rest;
    assert f[1..] == rest && f[0] == S(i, kids);
  }

  lemma TreeOf(t: seq<Section>, f: Forest)
    requires t != [] && Elems(t[0]) == Top(f) && Reps(t, f) && Numbers(Ids(f), 1, |t|)
    ensures Tree(t, f)
  {}

  function Titled(): Forest { [L(Paragraphs, 0), S(2, [L(Paragraphs, 1)])] }
  function Two(): Forest { [L(Paragraphs, 1), L(Paragraphs, 2), L(Paragraphs, 4)] }
  function Three(): Forest { [L(Paragraphs, 3)] }
  function Inner(): Forest { [L(Paragraphs, 0), S(2, Two()), S(3, Three())] }
  function Untitled(): Forest { [S(2, [L(Paragraphs, 0)]), S(3, [L(Paragraphs, 1)])] }

  lemma ForestsAre()
    ensures |FORESTS| == 3 && FORESTS[0] == [S(1, Titled())] && FORESTS[1] == [S(1, Untitled())]
    ensures FORESTS[2] == [L(Paragraphs, 0)] && MERGED == [S(1, Inner())]
  {}

  lemma OneOf(t: seq<Section>, n: nat)
    ensures var f := [L(Paragraphs, n)]; Reps(t, f) && Top(f) == [P(n)] == Leaves(f) && Ids(f) == []
  {
    hide *;
    NoItem(t);
    LeafThen(t, n, []);
    assert [L(Paragraphs, n)] + [] == [L(Paragraphs, n)];
  }

  lemma TwoIs(t: seq<Section>)
    ensures Reps(t, Two()) && Top(Two()) == [P(1), P(2), P(4)] == Leaves(Two()) && Ids(Two()) == []
  {
    hide Reps, Top, Leaves, Ids, P;
    OneOf(t, 4);
    LeafThen(t, 2, [L(Paragraphs, 4)]);
    LeafThen(t, 1, [L(Paragraphs, 2)] + [L(Paragraphs, 4)]);
    assert Two() == [L(Paragraphs, 1)] + ([L(Paragraphs, 2)] + [L(Paragraphs, 4)]);
  }

  /** The merged sections but the first: what it holds, and its two sub-sections. */
  lemma InnerIs(t: seq<Section>)
    requires |t| == 4 && Elems(t[2]) == [P(1), P(2), P(4)] && Elems(t[3]) == [P(3)]
    ensures Reps(t, Inner()) && Top(Inner()) == [P(0), Sec(2), Sec(3)] && Ids(Inner()) == [2, 3]
    ensures Leaves(Inner()) == [P(0), P(1), P(2), P(4), P(3)]
  {
    hide Reps, Top, Leaves, Ids, P, Two, Elems;
    NoItem(t);
    TwoIs(t);
    OneOf(t, 3);
    SectionThen(t, 3, Three(), []);
    SectionThen(t, 2, Two(), [S(3, Three())] + []);
    LeafThen(t, 0, [S(2, Two())] + ([S(3, Three())] + []));
    assert Inner() == [L(Paragraphs, 0)] + ([S(2, Two())] + ([S(3, Three())] + []));
  }

  lemma OrderMerged(t: seq<Section>)
    requires Has(t, [[Sec(1)], [P(0), Sec(2), Sec(3)], [P(1), P(2), P(4)], [P(3)]])
    ensures Tree(t, MERGED) && Leaves(MERGED) == [P(0), P(1), P(2), P(4), P(3)]
  {
    ForestsAre();
    HasElems(t, [[Sec(1)], [P(0), Sec(2), Sec(3)], [P(1), P(2), P(4)], [P(3)]]);
    hide *;
    InnerIs(t);
    OverAll(t, MERGED, Inner());
    assert [1] + [2, 3] == [1, 2, 3];
    ThreeNumbers();
    TreeOf(t, MERGED);
  }

  lemma HasElems(t: seq<Section>, elems: seq<seq<Elem>>)
    requires Has(t, elems)
    ensures |t| == |elems| && forall i :: 0 <= i < |t| ==> Elems(t[i]) == elems[i]
  {}

  /** A root over one section. */
  lemma OverAll(t: seq<Section>, f: Forest, kids: Forest)
    requires f == [S(1, kids)] && |t| > 1 && Elems(t[1]) == Top(kids) && Reps(t, kids)
    ensures Reps(t, f) && Top(f) == [Sec(1)] && Leaves(f) == Leaves(kids) && Ids(f) == [1] + Ids(kids)
  {
    hide *;
    NoItem(t);
    SectionThen(t, 1, kids, []);
    assert [S(1, kids)] + [] == f && [Sec(1)] + [] == [Sec(1)];
    assert Leaves(kids) + [] == Leaves(kids) && [1] + Ids(kids) + [] == [1] + Ids(kids);
  }

  lemma ThreeNumbers()
    ensures Numbers([1, 2], 1, 3) && Numbers([1, 2, 3], 1, 4)
  {}

  /**
   * Every part's sections are a tree, and the merged sections are one too, but not in document order: the merged
   * leaves are not the parts' leaves one part after another. The merge accepts the parts: nothing in it notices.
   * The open sections of the first part outlive the second, which ends in a section without spans: it is not
   * steady, and the third part folds a leaf behind which the second's last one has come.
   */
  lemma OrderBreaks(sep: nat)
    ensures PlanTo(PARTS, 3).Ok? && Planned(PARTS, SHAPES, 3)
    ensures Tree(FIRST.sections, FORESTS[0]) && Tree(SECOND.sections, FORESTS[1]) && Tree(THIRD.sections, FORESTS[2])
    ensures Tree(TableTo(PARTS, SHAPES, sep, 3), MERGED)
    ensures Leaves(MERGED) != LeavesTo(PARTS, SHAPES, sep, FORESTS, 3)
    ensures !Steady(SECOND, FORESTS[1], Chain(2, true), 2)
    ensures Accepts(PARTS, sep) && !Orderly.OrderlyTo(PARTS, SHAPES, FORESTS, 3)
  {
    hide *;
    SizesAre();
    SecondStale();
    LastTable(sep);
    OrderMerged(TableTo(PARTS, SHAPES, sep, 3));
    PartTrees();
    PlanFits();
    PartLeaves(sep);
    AllAreTrees();
    AllSound();
    TreesMerge(PARTS, sep, FORESTS);
    Orderly.FoldingKeepsTheDocument(PARTS, SHAPES, sep, FORESTS);
    NotTheSame();
  }

  lemma SizesAre()
    ensures |PARTS| == |SHAPES| == |FORESTS| == 3
  {}

  lemma NotTheSame()
    ensures [P(0), P(1), P(2), P(4), P(3)] != [P(0), P(1), P(2), P(3), P(4)]
  {
    assert [P(0), P(1), P(2), P(4), P(3)][3] == P(4) && [P(0), P(1), P(2), P(3), P(4)][3] == P(3);
  }

  lemma AllAreTrees()
    ensures AllTrees(PARTS, FORESTS)
  {
    PartTrees();
    PartsAre();
    SizesAre();
    hide Tree;
  }

  /** Their pointers name items they have, and their spans lie in their content. */
  lemma AllSound()
    ensures SectionsAgree(PARTS) && forall k :: 0 <= k < |PARTS| ==> Sound(PARTS[k])
  {
    PartsAre();
    hide *;
    FirstSound();
    SecondSound();
    ThirdSound();
    CoverAll(PARTS);
  }

  lemma CoverAll(parts: seq<Part>)
    requires forall k :: 0 <= k < |parts| ==> RootCovers(parts[k])
    ensures SectionsAgree(parts)
  {}

  lemma FirstSound()
    ensures Sound(FIRST) && RootCovers(FIRST)
  {}

  lemma SecondSound()
    ensures Sound(SECOND) && RootCovers(SECOND)
  {}

  lemma ThirdSound()
    ensures Sound(THIRD) && RootCovers(THIRD)
  {}

  lemma SecondStale()
    ensures !Steady(SECOND, FORESTS[1], Chain(2, true), 2)
  {
    var one := [S(2, [L(Paragraphs, 0)]), S(3, [L(Paragraphs, 1)])];
    assert Path(one) == [3] + Path([L(Paragraphs, 1)]) && Path([L(Paragraphs, 1)]) == [];
    assert Path(FORESTS[1]) == [1] + Path(one);
    assert Path(FORESTS[1])[1] == 3 && 3 in Path(FORESTS[1]);
    assert Bare(SECOND, 2, 1) == 1;
  }

  lemma PlanFits()
    ensures PlanTo(PARTS, 3).Ok? && Planned(PARTS, SHAPES, 3)
  {
    StillOpen();
    hide PlanTo;
    assert SHAPES[..3] == SHAPES;
  }

  lemma PartTrees()
    ensures Tree(FIRST.sections, FORESTS[0]) && Tree(SECOND.sections, FORESTS[1]) && Tree(THIRD.sections, FORESTS[2])
    ensures Leaves(FORESTS[0]) == [P(0), P(1)] && Leaves(FORESTS[1]) == [P(0), P(1)] && Leaves(FORESTS[2]) == [P(0)]
  {
    ForestsAre();
    hide *;
    FirstTree();
    SecondTree();
    ThirdTree();
  }

  lemma FirstTree()
    ensures Tree(FIRST.sections, [S(1, Titled())]) && Leaves([S(1, Titled())]) == [P(0), P(1)]
  {
    var t := FIRST.sections;
    assert |t| == 3 && Elems(t[0]) == [Sec(1)] && Elems(t[1]) == [P(0), Sec(2)] && Elems(t[2]) == [P(1)];
    TitledIs(t);
    hide *;
    OverAll(t, [S(1, Titled())], Titled());
    assert [1] + [2] == [1, 2];
    ThreeNumbers();
    TreeOf(t, [S(1, Titled())]);
  }

  lemma TitledIs(t: seq<Section>)
    requires |t| == 3 && Elems(t[2]) == [P(1)]
    ensures Reps(t, Titled()) && Top(Titled()) == [P(0), Sec(2)]
    ensures Ids(Titled()) == [2] && Leaves(Titled()) == [P(0), P(1)]
  {
    hide Reps, Top, Leaves, Ids, P, Elems;
    NoItem(t);
    OneOf(t, 1);
    SectionThen(t, 2, [L(Paragraphs, 1)], []);
    LeafThen(t, 0, [S(2, [L(Paragraphs, 1)])] + []);
    assert Titled() == [L(Paragraphs, 0)] + ([S(2, [L(Paragraphs, 1)])] + []);
  }

  lemma SecondTree()
    ensures Tree(SECOND.sections, [S(1, Untitled())]) && Leaves([S(1, Untitled())]) == [P(0), P(1)]
  {
    var t := SECOND.sections;
    assert |t| == 4 && Elems(t[0]) == [Sec(1)] && Elems(t[1]) == [Sec(2), Sec(3)];
    assert Elems(t[2]) == [P(0)] && Elems(t[3]) == [P(1)];
    UntitledIs(t);
    hide *;
    OverAll(t, [S(1, Untitled())], Untitled());
    assert [1] + [2, 3] == [1, 2, 3];
    ThreeNumbers();
    TreeOf(t, [S(1, Untitled())]);
  }

  lemma UntitledIs(t: seq<Section>)
    requires |t| == 4 && Elems(t[2]) == [P(0)] && Elems(t[3]) == [P(1)]
    ensures Reps(t, Untitled()) && Top(Untitled()) == [Sec(2), Sec(3)] && Ids(Untitled()) == [2, 3]
    ensures Leaves(Untitled()) == [P(0), P(1)]
  {
    hide Reps, Top, Leaves, Ids, P, Elems;
    NoItem(t);
    OneOf(t, 0);
    OneOf(t, 1);
    SectionThen(t, 3, [L(Paragraphs, 1)], []);
    SectionThen(t, 2, [L(Paragraphs, 0)], [S(3, [L(Paragraphs, 1)])] + []);
    assert Untitled() == [S(2, [L(Paragraphs, 0)])] + ([S(3, [L(Paragraphs, 1)])] + []);
  }

  lemma ThirdTree()
    ensures Tree(THIRD.sections, [L(Paragraphs, 0)]) && Leaves([L(Paragraphs, 0)]) == [P(0)]
  {
    var t := THIRD.sections;
    assert |t| == 1 && Elems(t[0]) == [P(0)];
    OneOf(t, 0);
    hide Reps, Leaves, Top, Ids;
    TreeOf(t, [L(Paragraphs, 0)]);
  }

  lemma PartLeaves(sep: nat)
    ensures LeavesTo(PARTS, SHAPES, sep, FORESTS, 3) == [P(0), P(1), P(2), P(3), P(4)]
  {
    PartTrees();
    Shifts(sep);
    PartsAre();
    hide ShiftOf, Leaves, Tree;
    RenTwo(ShiftOf(PARTS, SHAPES, sep, 0), P(0), P(1));
    RenTwo(ShiftOf(PARTS, SHAPES, sep, 1), P(0), P(1));
    RenOne(ShiftOf(PARTS, SHAPES, sep, 2), P(0));
    assert LeavesTo(PARTS, SHAPES, sep, FORESTS, 1) == [P(0), P(1)];
    assert LeavesTo(PARTS, SHAPES, sep, FORESTS, 2) == [P(0), P(1), P(2), P(3)];
  }
}
