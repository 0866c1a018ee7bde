/** The merged section tree of any number of parts: nothing lost, nothing doubled, nothing reordered. */
module Document {
  import opened Sections
  import opened Forest
  import opened Lead
  import opened Renumber
  import opened Fold
  import opened Incremental
  import opened LeftOpen

  /** shapes are those the plan gives the first j parts. */
  ghost predicate Planned(parts: seq<Part>, shapes: seq<Shape>, j: nat) {
    && j <= |parts| && |shapes| == |parts|
    && PlanTo(parts, j).Ok?
    && PlanTo(parts, j).value.shapes == shapes[..j]
  }

  lemma PlannedBefore(parts: seq<Part>, shapes: seq<Shape>, j: nat)
    requires 0 < j && Planned(parts, shapes, j)
    ensures Planned(parts, shapes, j - 1)
    ensures shapes[j - 1] == PlanTo(parts, j).value.shapes[j - 1]
    ensures parts[j - 1].sections != [] ==>
              ShapeOf(parts[j - 1], j - 1, |Open(parts, j - 1)|) == Ok(shapes[j - 1])
    ensures parts[j - 1].sections == [] ==> shapes[j - 1].Apart?
  {
    var before := PlanTo(parts, j - 1).value.shapes;
    assert PlanTo(parts, j).value.shapes[..j - 1] == before;
    assert shapes[..j][..j - 1] == shapes[..j - 1];
    assert shapes[..j][j - 1] == shapes[j - 1];
  }

  function Open(parts: seq<Part>, j: nat): seq<At>
    requires j <= |parts| && PlanTo(parts, j).Ok?
  {
    PlanTo(parts, j).value.open
  }

  ghost predicate Earlier(ats: seq<At>, j: nat) {
    forall d :: 0 <= d < |ats| ==> ats[d].k < j
  }

  lemma {:induction false} ReopenEarlier(k: nat, open: seq<At>, into: seq<nat>, path: seq<nat>)
    requires forall j :: 0 <= j < |into| ==> into[j] <= |open|
    requires (forall x :: x in path ==> x >= 1) && Earlier(open, k)
    ensures Earlier(Reopen(k, open, into, path), k + 1)
    decreases |path|
  {
    if path != [] {
      var front := path[..|path| - 1];
      assert forall j :: 0 <= j < |front| ==> front[j] == path[j] && path[j] in path;
      assert path[|path| - 1] in path;
      ReopenEarlier(k, open, into, front);
    }
  }

  lemma NextOpenEarlier(p: Part, k: nat, open: seq<At>, s: Shape)
    requires (s.Chain? ==> s.n <= |open|) && Earlier(open, k)
    ensures Earlier(NextOpen(p, k, open, s), k + 1)
  {
    ReopenEarlier(k, open, Into(s, |open|), OpenPath(p));
  }

  /** Only sections of earlier parts are open. */
  lemma {:induction false} OpenEarlier(parts: seq<Part>, j: nat)
    requires j <= |parts| && PlanTo(parts, j).Ok?
    ensures Earlier(Open(parts, j), j)
    decreases j
  {
    if j > 0 {
      hide *;
      OpenStep(parts, j);
      OpenEarlier(parts, j - 1);
      LaterToo(Open(parts, j - 1), j - 1);
      if parts[j - 1].sections != [] {
        NextOpenEarlier(parts[j - 1], j - 1, Open(parts, j - 1),
                        ShapeOf(parts[j - 1], j - 1, |Open(parts, j - 1)|).value);
      }
    } else {
      NoneOpen(parts);
    }
  }

  lemma NoneOpen(parts: seq<Part>)
    ensures PlanTo(parts, 0).Ok? && Earlier(Open(parts, 0), 0)
  {}

  lemma LaterToo(ats: seq<At>, j: nat)
    requires Earlier(ats, j)
    ensures Earlier(ats, j + 1)
  {}

  lemma OpenStep(parts: seq<Part>, j: nat)
    requires 0 < j <= |parts| && PlanTo(parts, j).Ok?
    ensures PlanTo(parts, j - 1).Ok?
    ensures parts[j - 1].sections == [] ==> Open(parts, j) == Open(parts, j - 1)
    ensures parts[j - 1].sections != [] ==>
              var s := ShapeOf(parts[j - 1], j - 1, |Open(parts, j - 1)|);
              && s.Ok? && (s.value.Chain? ==> s.value.n <= |Open(parts, j - 1)|)
              && Open(parts, j) == NextOpen(parts[j - 1], j - 1, Open(parts, j - 1), s.value)
  {
    hide ShapeOf, NextOpen;
  }

  function OpenIds(parts: seq<Part>, shapes: seq<Shape>, j: nat): seq<nat>
    requires j <= |parts| && PlanTo(parts, j).Ok? && |shapes| == |parts|
  {
    OpenEarlier(parts, j);
    WhereAll(parts, shapes, Open(parts, j))
  }

  /** The merged sections of the first j parts. The root has no elements or spans until a part's has. */
  function TableTo(parts: seq<Part>, shapes: seq<Shape>, sep: nat, j: nat): (t: seq<Section>)
    requires j <= |parts| == |shapes| && PlanTo(parts, j).Ok?
    ensures t != []
    decreases j
  {
    if j == 0 then [Section(None, None)]
    else
      var t, p := TableTo(parts, shapes, sep, j - 1), parts[j - 1];
      if p.sections == [] then t
      else AddPart(t, OpenIds(parts, shapes, j - 1), p, shapes[j - 1], ShiftOf(parts, shapes, sep, j - 1))
  }

  /** The part's sections, if it has any, are one tree. */
  ghost predicate IsTree(p: Part, f: Forest) {
    if p.sections == [] then f == [] else Tree(p.sections, f)
  }

  ghost predicate AllTrees(parts: seq<Part>, forests: seq<Forest>) {
    |forests| == |parts| && forall k :: 0 <= k < |parts| ==> IsTree(parts[k], forests[k])
  }

  /** And all but its root carry elements and spans. */
  ghost predicate WellFormed(p: Part, f: Forest) {
    if p.sections == [] then f == [] else Tree(p.sections, f) && AllExtensible(p)
  }

  ghost predicate AllWellFormed(parts: seq<Part>, forests: seq<Forest>) {
    |forests| == |parts| && forall k :: 0 <= k < |parts| ==> WellFormed(parts[k], forests[k])
  }

  /** The parts' leaf pointers in document order, each part's renumbered. */
  ghost function LeavesTo(parts: seq<Part>, shapes: seq<Shape>, sep: nat, forests: seq<Forest>, j: nat): seq<Elem>
    requires j <= |parts| == |shapes| == |forests|
    decreases j
  {
    if j == 0 then []
    else LeavesTo(parts, shapes, sep, forests, j - 1)
         + RenElems(ShiftOf(parts, shapes, sep, j - 1), Leaves(forests[j - 1]))
  }

  /**
   * Part k of the merge, from the sections left open and the table before it to those after it. The
   * shapes are all the parts': a part's sections land where the parts before it leave off.
   */
  ghost predicate Step(
      parts: seq<Part>, shapes: seq<Shape>, sep: nat, k: nat,
      open: seq<At>, t: seq<Section>, open': seq<At>, t': seq<Section>)
    requires k < |parts| == |shapes| && Placed(parts, shapes, open)
  {
    var p, s := parts[k], shapes[k];
    if p.sections == [] then s.Apart? && open' == open && t' == t
    else
      && ShapeOf(p, k, |open|) == Ok(s) && open' == NextOpen(p, k, open, s)
      && t' == AddPart(t, WhereAll(parts, shapes, open), p, s, ShiftOf(parts, shapes, sep, k))
  }

  /** After k parts: one tree, its leaves those of the parts, and the sections left open where it ends. */
  ghost predicate Holds(
      parts: seq<Part>, shapes: seq<Shape>, sep: nat, forests: seq<Forest>, k: nat,
      open: seq<At>, t: seq<Section>, m: Forest)
    requires k <= |parts| == |shapes| == |forests|
  {
    && Placed(parts, shapes, open)
    && |t| == SecsTo(parts, shapes, k)
    && Tree(t, m)
    && OpenIn(t, m, WhereAll(parts, shapes, open))
    && Leaves(m) == LeavesTo(parts, shapes, sep, forests, k)
  }

  /** The plan and the table it comes to are such steps. */
  lemma Stepped(parts: seq<Part>, shapes: seq<Shape>, sep: nat, j: nat)
    requires 0 < j && Planned(parts, shapes, j)
    ensures Planned(parts, shapes, j - 1) && PlanTo(parts, j - 1).Ok? && Placed(parts, shapes, Open(parts, j - 1))
    ensures Step(parts, shapes, sep, j - 1, Open(parts, j - 1), TableTo(parts, shapes, sep, j - 1),
                 Open(parts, j), TableTo(parts, shapes, sep, j))
  {
    PlannedBefore(parts, shapes, j);
    OpenEarlier(parts, j - 1);
    hide ShapeOf, NextOpen, AddPart;
  }

  lemma NothingHolds(parts: seq<Part>, shapes: seq<Shape>, sep: nat, forests: seq<Forest>) returns (m: Forest)
    requires |parts| == |shapes| == |forests|
    ensures Holds(parts, shapes, sep, forests, 0, Open(parts, 0), TableTo(parts, shapes, sep, 0), m)
  {
    m := [];
  }
}
