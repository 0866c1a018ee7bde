/**
 * Parts whose sections are trees always merge: none of the checks made as the sections are planned
 * and written can fail, least of all the one for a pointer to a section folded away (di.go:239-242).
 */
module Acceptance {
  import opened Sections
  import opened Forest
  import opened Lead
  import opened Renumber
  import opened Fold
  import opened Incremental
  import opened LeftOpen
  import opened Document
  import opened Deferred
  import opened Merger

  /** Every pointer to an item of the part names one. */
  ghost predicate Named(p: Part) {
    forall i :: 0 <= i < |p.sections| ==> HoldsItems(p, Elems(p.sections[i]))
  }

  /** And every section's spans lie in its content. */
  ghost predicate Sound(p: Part) {
    Named(p) && forall i :: 0 <= i < |p.sections| ==> Within(Spans(p.sections[i]), p.length)
  }

  ghost predicate HoldsItems(p: Part, es: seq<Elem>) {
    forall n :: 0 <= n < |es| ==> es[n].Leaf? ==> es[n].n < Count(p, es[n].m)
  }

  lemma {:induction false} ChainAccepted(p: Part, i: nat, depth: nat)
    requires Sound(p) && 1 <= i <= depth + 1
    ensures ChainFrom(p, i, depth).Ok?
    decreases |p.sections| - i
  {
    if i < |p.sections| {
      assert Within(Spans(p.sections[i]), p.length);
      if i <= depth { ChainAccepted(p, i + 1, depth); }
    }
  }

  lemma ShapeAccepted(p: Part, k: nat, depth: nat)
    requires Sound(p) && p.sections != []
    ensures ShapeOf(p, k, depth).Ok?
  {
    assert HoldsItems(p, Elems(p.sections[0]));
    if depth > 0 { ChainAccepted(p, 1, depth); }
  }

  lemma {:induction false} PlanAccepted(parts: seq<Part>, j: nat)
    requires j <= |parts| && forall k :: 0 <= k < |parts| ==> Sound(parts[k])
    ensures PlanTo(parts, j).Ok?
    decreases j
  {
    if j > 0 {
      PlanAccepted(parts, j - 1);
      var p, plan := parts[j - 1], PlanTo(parts, j - 1).value;
      if p.sections != [] { ShapeAccepted(p, j - 1, |plan.open|); }
      hide ShapeOf, NextOpen, Sound;
    }
  }

  /** What a section keeps or gives is part of what some section of the part holds. */
  lemma ShareFrom(p: Part, s: Shape, depth: nat, d: nat, n: nat) returns (i: nat)
    requires p.sections != [] && n < |ShareElems(p, s, depth, d)|
    ensures i < |p.sections| && ShareElems(p, s, depth, d)[n] in Elems(p.sections[i])
  {
    var es := ShareElems(p, s, depth, d);
    i := if s.Chain? then (if d < s.n then d else s.n) else 0;
    var from := if (s.Chain? && d < s.n) then 1 else if s.Run? && d == 0 then s.n else 0;
    assert es[n] == Elems(p.sections[i])[from + n];
  }

  lemma {:induction false} TopIn(f: Forest, n: nat)
    requires n < |f|
    ensures f[n].S? ==> f[n].i in Ids(f)
    decreases |f|
  {
    if n > 0 {
      TopIn(f[1..], n - 1);
    } else if f[0].S? {
      assert f[0].i == ItemIds(f[0])[0];
    }
  }

  /** What a part gives or keeps at any depth holds nothing the visitor refuses. */
  lemma ShareRenumbers(p: Part, f: Forest, s: Shape, depth: nat, d: nat, sh: Shift)
    requires Tree(p.sections, f) && Fits(p, s, depth, f) && Named(p) && d <= depth && sh.secDrop == SecDrop(s)
    ensures AllRenumber(p, sh, ShareElems(p, s, depth, d))
  {
    var es, adds := ShareElems(p, s, depth, d), Adds(f, s, depth);
    AddsTop(p, f, s, depth, d);
    FlatAdds(f, s, depth);
    FlatIds(adds, d);
    KeptNumbers(Ids(f), SecDrop(s), Ids(Flat(adds)), |p.sections|);
    TopAt(adds[d]);
    forall n | 0 <= n < |es| ensures Renumbers(p, sh, es[n]) {
      hide ShareElems, Adds, Fits, Tree;
      var i := ShareFrom(p, s, depth, d, n);
      assert HoldsItems(p, Elems(p.sections[i]));
      TopIn(adds[d], n);
    }
  }

  lemma {:induction false} FlatReps(table: seq<Section>, adds: seq<Forest>)
    requires forall d :: 0 <= d < |adds| ==> Reps(table, adds[d])
    ensures Reps(table, Flat(adds))
    decreases |adds|
  {
    if adds != [] {
      FlatReps(table, adds[1..]);
      RepsConcat(table, Flat(adds[1..]), adds[0]);
    }
  }

  /** A section of a forest points at sections of that forest only. */
  lemma {:induction false} Inside(table: seq<Section>, g: Forest, i: nat, x: nat)
    requires Reps(table, g) && i in Ids(g)
    ensures i < |table|
    ensures Sec(x) in Elems(table[i]) ==> x in Ids(g)
    decreases g
  {
    if i in Ids(g[1..]) {
      Inside(table, g[1..], i, x);
    } else {
      assert i in ItemIds(g[0]);
      var kids := g[0].kids;
      if i == g[0].i {
        if Sec(x) in Elems(table[i]) { PointsIn(kids, x); }
      } else {
        assert i in Ids(kids);
        Inside(table, kids, i, x);
      }
      assert x in Ids(kids) ==> x in ItemIds(g[0]);
    }
  }

  lemma PointsIn(f: Forest, x: nat)
    requires Sec(x) in Top(f)
    ensures x in Ids(f)
  {
    TopAt(f);
    var n :| 0 <= n < |Top(f)| && Top(f)[n] == Sec(x);
    TopIn(f, n);
  }

  /** A section a part keeps holds no pointer to one folded away. */
  lemma KeptRenumbers(p: Part, f: Forest, s: Shape, depth: nat, i: nat, sh: Shift)
    requires Tree(p.sections, f) && Fits(p, s, depth, f) && Named(p) && sh.secDrop == SecDrop(s)
    requires SecDrop(s) < i < |p.sections|
    ensures AllRenumber(p, sh, Elems(p.sections[i]))
  {
    var adds := Adds(f, s, depth);
    forall d | 0 <= d < |adds| ensures Reps(p.sections, adds[d]) {
      AddsTop(p, f, s, depth, d);
    }
    FlatReps(p.sections, adds);
    FlatAdds(f, s, depth);
    var ids := Ids(Flat(adds));
    KeptNumbers(Ids(f), SecDrop(s), ids, |p.sections|);
    assert i in ids;
    var es := Elems(p.sections[i]);
    assert HoldsItems(p, es);
    forall n | 0 <= n < |es| ensures Renumbers(p, sh, es[n]) {
      if es[n].Sec? {
        assert es[n] in es;
        Inside(p.sections, Flat(adds), i, es[n].i);
        assert es[n].i in ids;
      }
    }
  }

  ghost predicate FoldsRenumber(parts: seq<Part>, shs: seq<Shift>, folds: Folds)
    requires |parts| == |shs|
  {
    && AllApt(shs, folds)
    && forall at :: at in folds ==> ListsRenumber(parts, shs, folds[at])
  }

  lemma {:induction false} FoldInRenumbers(
      parts: seq<Part>, shs: seq<Shift>, folds: Folds, open: seq<At>, k: nat, s: Shape, f: Forest, n: nat)
    requires k < |parts| == |shs| && FoldsRenumber(parts, shs, folds) && n <= |open| && shs[k].secDrop == SecDrop(s)
    requires Tree(parts[k].sections, f) && Fits(parts[k], s, |open|, f) && Named(parts[k])
    ensures FoldsRenumber(parts, shs, FoldIn(folds, open, parts[k], k, s, n))
    decreases n
  {
    if n > 0 {
      FoldInRenumbers(parts, shs, folds, open, k, s, f, n - 1);
      ShareRenumbers(parts[k], f, s, |open|, n, shs[k]);
      var c := Gives(parts[k], k, s, |open|, n);
      assert c.Some? ==> c.value.k == k && AllRenumber(parts[k], shs[k], Contents(c.value));
      hide ShareElems, Gives, AllRenumber, Tree, Fits, Named;
      CollectRenumbers(parts, shs, FoldIn(folds, open, parts[k], k, s, n - 1), open[n - 1], c);
    }
  }

  lemma CollectRenumbers(parts: seq<Part>, shs: seq<Shift>, folds: Folds, at: At, c: Option<Continuation>)
    requires |parts| == |shs| && FoldsRenumber(parts, shs, folds)
    requires c.Some? ==> c.value.k < |parts| && AllRenumber(parts[c.value.k], shs[c.value.k], Contents(c.value))
    ensures FoldsRenumber(parts, shs, Collect(folds, at, c))
  {
    hide AllRenumber;
  }

  lemma PartShape(parts: seq<Part>, shapes: seq<Shape>, forests: seq<Forest>, j: nat)
    requires 0 < j <= |parts| == |shapes| && Planned(parts, shapes, j) && AllTrees(parts, forests)
    requires parts[j - 1].sections != []
    ensures |forests| == |parts| && PlanTo(parts, j - 1).Ok? && Tree(parts[j - 1].sections, forests[j - 1])
    ensures ShapeOf(parts[j - 1], j - 1, |Open(parts, j - 1)|) == Ok(shapes[j - 1])
    ensures Fits(parts[j - 1], shapes[j - 1], |Open(parts, j - 1)|, forests[j - 1])
  {
    hide ShapeOf, NextOpen, Fits, Reps, Numbers;
    PlannedBefore(parts, shapes, j);
    assert IsTree(parts[j - 1], forests[j - 1]);
    ShapeFits(parts[j - 1], j - 1, |Open(parts, j - 1)|, forests[j - 1]);
  }

  lemma NoFoldsRenumber(parts: seq<Part>, shapes: seq<Shape>, sep: nat)
    requires |parts| == |shapes|
    ensures PlanTo(parts, 0).Ok? && FoldsRenumber(parts, Shifts(parts, shapes, sep), FoldsTo(parts, shapes, 0))
  {}

  lemma {:induction false} FoldsToRenumber(
      parts: seq<Part>, shapes: seq<Shape>, sep: nat, forests: seq<Forest>, j: nat)
    requires j <= |parts| == |shapes| && PlanTo(parts, j).Ok? && Planned(parts, shapes, j)
    requires AllTrees(parts, forests) && forall k :: 0 <= k < |parts| ==> Named(parts[k])
    ensures FoldsRenumber(parts, Shifts(parts, shapes, sep), FoldsTo(parts, shapes, j))
    decreases j
  {
    hide *;
    if j == 0 {
      NoFoldsRenumber(parts, shapes, sep);
    } else {
      PlannedBefore(parts, shapes, j);
      OpenPlaced(parts, shapes, j - 1);
      NextFolds(parts, shapes, j);
      FoldsToRenumber(parts, shapes, sep, forests, j - 1);
      if parts[j - 1].sections != [] {
        PartShape(parts, shapes, forests, j);
        ShiftAt(parts, shapes, sep, j - 1);
        FoldInRenumbers(parts, Shifts(parts, shapes, sep), FoldsTo(parts, shapes, j - 1), Open(parts, j - 1), j - 1,
                        shapes[j - 1], forests[j - 1], |Open(parts, j - 1)|);
      }
    }
  }

  lemma {:induction false} RootRenumbers(
      parts: seq<Part>, shapes: seq<Shape>, sep: nat, forests: seq<Forest>, j: nat)
    requires j <= |parts| == |shapes| && PlanTo(parts, j).Ok? && Planned(parts, shapes, j)
    requires AllTrees(parts, forests) && forall k :: 0 <= k < |parts| ==> Named(parts[k])
    ensures ListsRenumber(parts, Shifts(parts, shapes, sep), RootLists(parts, shapes, j))
    decreases j
  {
    if j > 0 {
      hide ShapeOf, NextOpen, Named, Shifts, ShareElems, Tree, Fits, AllRenumber, Contents, RootList, PlanTo, Planned;
      PlannedBefore(parts, shapes, j);
      PlannedOk(parts, shapes, j - 1);
      RootRenumbers(parts, shapes, sep, forests, j - 1);
      if parts[j - 1].sections != [] {
        PartShape(parts, shapes, forests, j);
        ShiftAt(parts, shapes, sep, j - 1);
        var c := ListsGrow(parts, shapes, j, |Open(parts, j - 1)|);
        ShareRenumbers(parts[j - 1], forests[j - 1], shapes[j - 1], |Open(parts, j - 1)|, 0,
                       Shifts(parts, shapes, sep)[j - 1]);
      }
    }
  }

  lemma KeptWrite(parts: seq<Part>, shapes: seq<Shape>, sep: nat, forests: seq<Forest>, k: nat, i: nat, folds: Folds)
    requires k < |parts| == |shapes| && PlanTo(parts, k + 1).Ok? && Planned(parts, shapes, k + 1)
    requires AllTrees(parts, forests) && Named(parts[k]) && SecDrop(shapes[k]) < i < |parts[k].sections|
    requires FoldsRenumber(parts, Shifts(parts, shapes, sep), folds)
    requires Collected(folds, At(k, i)) != [] ==> Within(Spans(parts[k].sections[i]), parts[k].length)
    ensures SectionWrites(parts, Shifts(parts, shapes, sep), Collected(folds, At(k, i)), k, i)
  {
    hide *;
    PartShape(parts, shapes, forests, k + 1);
    ShiftAt(parts, shapes, sep, k);
    KeptRenumbers(parts[k], forests[k], shapes[k], |Open(parts, k)|, i, Shifts(parts, shapes, sep)[k]);
    CollectedRenumber(parts, Shifts(parts, shapes, sep), folds, At(k, i));
    OwnWrites(parts, Shifts(parts, shapes, sep), Collected(folds, At(k, i)), k, i);
  }

  lemma CollectedRenumber(parts: seq<Part>, shs: seq<Shift>, folds: Folds, at: At)
    requires |parts| == |shs| && FoldsRenumber(parts, shs, folds)
    ensures Apt(shs, Collected(folds, at)) && ListsRenumber(parts, shs, Collected(folds, at))
  {
    hide AllRenumber;
  }

  /** A section's own elements, and then those folded into it. */
  lemma OwnWrites(parts: seq<Part>, shs: seq<Shift>, cs: seq<Continuation>, k: nat, i: nat)
    requires k < |parts| == |shs| && i < |parts[k].sections|
    requires cs != [] ==> Within(Spans(parts[k].sections[i]), parts[k].length)
    requires AllRenumber(parts[k], shs[k], Elems(parts[k].sections[i])) && Apt(shs, cs) && ListsRenumber(parts, shs, cs)
    ensures SectionWrites(parts, shs, cs, k, i)
  {
    hide AllRenumber;
    var sec := parts[k].sections[i];
    var own := Continuation(k, sec.elements, Spans(sec));
    assert Contents(own) == Elems(sec);
    assert Apt(shs, [own] + cs) && ListsRenumber(parts, shs, [own] + cs);
  }

  lemma {:induction false} PlannedPrefix(parts: seq<Part>, shapes: seq<Shape>, j: nat)
    requires j <= |parts| && Planned(parts, shapes, |parts|)
    ensures PlanTo(parts, j).Ok? && Planned(parts, shapes, j)
    decreases |parts| - j
  {
    hide *;
    if j < |parts| {
      PlannedPrefix(parts, shapes, j + 1);
      PlannedBefore(parts, shapes, j + 1);
      PlannedOk(parts, shapes, j);
    } else {
      PlannedOk(parts, shapes, j);
    }
  }

  lemma PlannedOk(parts: seq<Part>, shapes: seq<Shape>, j: nat)
    requires Planned(parts, shapes, j)
    ensures j <= |parts| && PlanTo(parts, j).Ok?
  {
    hide PlanTo;
  }

  /** The continued sections of part k, of those it keeps, have spans within its content. */
  ghost predicate SpansFit(parts: seq<Part>, shapes: seq<Shape>, folds: Folds, k: nat)
    requires k < |parts| == |shapes|
  {
    forall i :: SecDrop(shapes[k]) < i < |parts[k].sections| && Collected(folds, At(k, i)) != [] ==>
      Within(Spans(parts[k].sections[i]), parts[k].length)
  }

  /**
   * Parts whose sections are trees, over items and spans they have, are merged whenever they agree on
   * having sections at all: no pointer to a section folded away is ever met.
   */
  lemma TreesMerge(parts: seq<Part>, sep: nat, forests: seq<Forest>)
    requires AllTrees(parts, forests) && SectionsAgree(parts)
    requires forall k :: 0 <= k < |parts| ==> Sound(parts[k])
    ensures Accepts(parts, sep)
  {
    hide *;
    PlanAccepted(parts, |parts|);
    var shapes := PlanTo(parts, |parts|).value.shapes;
    AllPlanned(parts);
    AcceptsWhen(parts, sep);
    forall k | 0 <= k < |parts| ensures Named(parts[k]) && SpansFit(parts, shapes, FoldsTo(parts, shapes, |parts|), k) {
      SoundFits(parts, shapes, FoldsTo(parts, shapes, |parts|), k);
    }
    WritesAll(parts, shapes, sep, forests);
  }

  lemma SoundFits(parts: seq<Part>, shapes: seq<Shape>, folds: Folds, k: nat)
    requires k < |parts| == |shapes| && Sound(parts[k])
    ensures Named(parts[k]) && SpansFit(parts, shapes, folds, k)
  {
    hide Named;
  }

  lemma WritesAll(parts: seq<Part>, shapes: seq<Shape>, sep: nat, forests: seq<Forest>)
    requires |parts| == |shapes| && PlanTo(parts, |parts|).Ok? && Planned(parts, shapes, |parts|)
    requires AllTrees(parts, forests) && forall k :: 0 <= k < |parts| ==> Named(parts[k])
    requires forall k :: 0 <= k < |parts| ==> SpansFit(parts, shapes, FoldsTo(parts, shapes, |parts|), k)
    ensures AllApt(Shifts(parts, shapes, sep), FoldsTo(parts, shapes, |parts|))
    ensures AllWrite(parts, shapes, Shifts(parts, shapes, sep), FoldsTo(parts, shapes, |parts|))
  {
    hide *;
    var shs, folds := Shifts(parts, shapes, sep), FoldsTo(parts, shapes, |parts|);
    FoldsToRenumber(parts, shapes, sep, forests, |parts|);
    RootRenumbers(parts, shapes, sep, forests, |parts|);
    FirstApt(parts, shapes, sep, |parts|);
    forall k | 0 <= k < |parts| ensures PartWrites(parts, shapes, shs, folds, k) {
      PlannedPrefix(parts, shapes, k + 1);
      WritesPart(parts, shapes, sep, forests, k, folds);
    }
    WritesRest(parts, shapes, shs, folds);
  }

  lemma WritesRest(parts: seq<Part>, shapes: seq<Shape>, shs: seq<Shift>, folds: Folds)
    requires |parts| == |shs| == |shapes| && AllApt(shs, folds)
    requires ListsRenumber(parts, shs, RootLists(parts, shapes, |parts|))
    requires forall k :: 0 <= k < |parts| ==> PartWrites(parts, shapes, shs, folds, k)
    ensures AllWrite(parts, shapes, shs, folds)
  {
    hide ListsRenumber, PartWrites, RootLists;
  }

  lemma WritesPart(parts: seq<Part>, shapes: seq<Shape>, sep: nat, forests: seq<Forest>, k: nat, folds: Folds)
    requires k < |parts| == |shapes| && PlanTo(parts, k + 1).Ok? && Planned(parts, shapes, k + 1)
    requires AllTrees(parts, forests) && Named(parts[k]) && SpansFit(parts, shapes, folds, k)
    requires AllApt(Shifts(parts, shapes, sep), folds) && FoldsRenumber(parts, Shifts(parts, shapes, sep), folds)
    ensures PartWrites(parts, shapes, Shifts(parts, shapes, sep), folds, k)
  {
    hide Shifts, PlanTo, Planned, AllTrees, Named, FoldsRenumber, SectionWrites;
    var shs := Shifts(parts, shapes, sep);
    forall i | SecDrop(shapes[k]) < i < |parts[k].sections|
      ensures SectionWrites(parts, shs, Collected(folds, At(k, i)), k, i)
    {
      KeptWrite(parts, shapes, sep, forests, k, i, folds);
    }
  }
}
