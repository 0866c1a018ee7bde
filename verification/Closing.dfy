/**
 * Exactly when the sections left open are where the merged tree ends (internal/merge/continue.go:262-284, 503-533),
 * for parts whose sections need not all carry elements and spans.
 */
module Closing {
  import opened Lists
  import opened Sections
  import opened Forest
  import opened Lead
  import opened Renumber
  import opened Fold
  import opened Incremental
  import opened LeftOpen
  import opened Document

  /** A walk that meets a section that cannot be extended finds nothing. */
  lemma {:induction false} WalkBlocked(p: Part, f: Forest, path: seq<nat>, steps: nat)
    requires !PathExtensible(p, f) && Reps(p.sections, f) && p.sections != []
    requires Below(path, |p.sections|) && Below(Ids(f), |p.sections|) && Distinct(path + Ids(f))
    requires |path| + steps >= |p.sections|
    ensures forall x :: x in path ==> 1 <= x < |p.sections|
    ensures Walk(p.sections, Top(f), path, steps) == []
    decreases steps
  {
    hide *;
    LastTop(f);
    BelowIs(path, |p.sections|);
    SomePath(p, f);
    var i, kids := f[|f| - 1].i, f[|f| - 1].kids;
    WalkOn(p, f, path);
    BlockedOn(p, f);
    StepsLeft(path, i, |p.sections|);
    if Extensible(p.sections[i]) {
      WalkBlocked(p, kids, path + [i], steps - 1);
      WalkStep(p, Top(f), path, steps);
    } else {
      WalkEnds(p, Top(f), path, steps);
    }
  }

  lemma SomePath(p: Part, f: Forest)
    requires !PathExtensible(p, f)
    ensures f != [] && f[|f| - 1].S?
  {}

  lemma BlockedOn(p: Part, f: Forest)
    requires !PathExtensible(p, f) && f != [] && f[|f| - 1].S? && f[|f| - 1].i < |p.sections|
    ensures Extensible(p.sections[f[|f| - 1].i]) ==> !PathExtensible(p, f[|f| - 1].kids)
  {
    assert Path(f) == [f[|f| - 1].i] + Path(f[|f| - 1].kids);
  }

  lemma WalkEnds(p: Part, elems: seq<Elem>, path: seq<nat>, steps: nat)
    requires Below(path, |p.sections|) && steps > 0 && elems != [] && elems[|elems| - 1].Sec?
    requires var i := elems[|elems| - 1].i; 1 <= i < |p.sections| && i !in path && !Extensible(p.sections[i])
    ensures forall x :: x in path ==> 1 <= x < |p.sections|
    ensures Walk(p.sections, elems, path, steps) == []
  {}

  lemma PathBlocked(p: Part, f: Forest)
    requires Tree(p.sections, f) && !PathExtensible(p, f)
    ensures OpenPath(p) == []
  {
    assert [] + Ids(f) == Ids(f);
    WalkBlocked(p, f, [], |p.sections|);
  }

  /** How many of the levels of a chain of n hold nothing but the next one, from level j on. */
  function Bare(p: Part, n: nat, j: nat): (m: nat)
    requires j <= n
    ensures j <= m <= n
    decreases n - j
  {
    if j < n && j < |p.sections| && |Elems(p.sections[j])| == 1 then Bare(p, n, j + 1) else j
  }

  /** The depth of the open path at which what the part keeps goes on. */
  function TurnDepth(p: Part, s: Shape, depth: nat): nat {
    if !s.Chain? then 0
    else
      var m := Bare(p, s.n, 0);
      if m == s.n && s.content then depth else m
  }

  /** The open sections are kept although the part's own tree goes on above the deepest of them. */
  predicate Stale(p: Part, s: Shape, depth: nat) {
    depth > 0 && |RootElems(p)| <= RootDrop(s) && TurnDepth(p, s, depth) < depth
  }

  lemma {:induction false} BareIs(p: Part, f: Forest, n: nat, j: nat)
    requires Tree(p.sections, f) && Opens(f, 1, n) && j <= n < |p.sections|
    ensures var m := Bare(p, n, j);
            && (forall i :: j <= i < m ==> Peel(f, n)[i] == [])
            && (m < n ==> Peel(f, n)[m] != [])
    decreases n - j
  {
    if j < n {
      LevelIs(p, f, n, j);
      BareIs(p, f, n, j + 1);
    }
  }

  lemma LevelIs(p: Part, f: Forest, n: nat, j: nat)
    requires Tree(p.sections, f) && Opens(f, 1, n) && j < n < |p.sections|
    ensures Peel(f, n)[j] == [] <==> |Elems(p.sections[j])| == 1
  {
    if j > 0 {
      PeelTop(p.sections, f, 1, n, j);
      assert |Top(Peel(f, n)[j])| == |Peel(f, n)[j]|;
    } else {
      assert Peel(f, n)[0] == f[1..];
    }
  }

  /** The shallowest content a part adds is at the depth its tree turns off the open path. */
  lemma TurnIs(p: Part, f: Forest, s: Shape, depth: nat, m: nat, t: nat, below: Forest)
    requires Tree(p.sections, f) && Fits(p, s, depth, f) && !s.Moved? && f != []
    requires (s.Run? || s.Moved? ==> depth > 0) && (s.Chain? ==> s.n <= depth) && (s.Run? ==> s.n <= |f|)
    requires Turns(f, s, depth, m, t, below)
    ensures t == TurnDepth(p, s, depth)
  {
    hide Turns, Fits, Peel, Tree;
    TurnsParts(f, s, depth, m, t, below);
    FitsBounds(p, s, depth, f);
    if s.Chain? {
      FitsEnd(p, s, depth, f);
      BareIs(p, f, s.n, 0);
      ChainFirst(p, f, s.n, s.content, depth, t);
    } else if s.Run? {
      RunKeeps(p, s, depth, f);
    }
  }

  lemma FitsEnd(p: Part, s: Shape, depth: nat, f: Forest)
    requires Fits(p, s, depth, f) && s.Chain?
    ensures Peel(f, s.n)[s.n] != []
  {}

  lemma RunKeeps(p: Part, s: Shape, depth: nat, f: Forest)
    requires Fits(p, s, depth, f) && s.Run?
    ensures s.n <= |f| && Adds(f, s, depth)[0] != []
  {}

  lemma ChainFirst(p: Part, f: Forest, n: nat, content: bool, depth: nat, t: nat)
    requires 0 < n <= depth && t <= depth && Peel(f, n)[n] != []
    requires var m := Bare(p, n, 0); (forall i :: 0 <= i < m ==> Peel(f, n)[i] == []) && (m < n ==> Peel(f, n)[m] != [])
    requires var adds := Adds(f, Chain(n, content), depth); adds[t] != [] && forall j :: 0 <= j < t ==> adds[j] == []
    ensures t == TurnDepth(p, Chain(n, content), depth)
  {
    hide Bare, Peel;
    var adds, m := Adds(f, Chain(n, content), depth), Bare(p, n, 0);
    assert forall j :: 0 <= j < n ==> adds[j] == Peel(f, n)[j];
    if content {
      assert adds[depth] == Peel(f, n)[n];
      assert forall j :: n <= j < depth ==> adds[j] == [];
    } else {
      assert adds[n] == Peel(f, n)[n];
    }
  }

  /** The chain's sections can be extended: what blocks the path is a section the part keeps. */
  lemma BlockedBelow(p: Part, k: nat, f: Forest, s: Shape, depth: nat, m: nat, below: Forest)
    requires p.sections != [] && ShapeOf(p, k, depth) == Ok(s) && m <= SecDrop(s)
    requires Path(f) == Range(1, m) + Path(below) && !PathExtensible(p, f)
    ensures Path(below) != []
  {
    if Path(below) == [] {
      assert Path(f) == Range(1, m) by { assert Range(1, m) + [] == Range(1, m); }
      forall x | x in Path(f) ensures x < |p.sections| && Extensible(p.sections[x]) {
        assert 1 <= x <= m;
        ChainAll(p, k, s, depth, x);
      }
    }
  }

  lemma ChainAll(p: Part, k: nat, s: Shape, depth: nat, x: nat)
    requires p.sections != [] && ShapeOf(p, k, depth) == Ok(s) && 1 <= x <= SecDrop(s)
    ensures x < |p.sections| && Extensible(p.sections[x])
  {
    ChainExtensible(p, 1, depth, x);
  }

  lemma NextBlocked(p: Part, k: nat, ats: seq<At>, s: Shape)
    requires (s.Chain? ==> s.n <= |ats|) && !s.Moved? && OpenPath(p) == []
    ensures NextOpen(p, k, ats, s) == if |RootElems(p)| > RootDrop(s) then [] else ats
  {}

  lemma OpenNothing(t: seq<Section>, m: Forest)
    ensures OpenIn(t, m, [])
  {}

  lemma OpenIs(t: seq<Section>, m: Forest, open: seq<nat>)
    ensures OpenIn(t, m, open) <==>
              && |open| <= |Path(m)| && open == Path(m)[..|open|]
              && forall d :: 0 <= d < |open| ==> open[d] < |t| && Extensible(t[open[d]])
  {}

  /** Old sections lie before the new ones. */
  lemma OldBefore(t: seq<Section>, m: Forest, d: nat)
    requires Tree(t, m) && d < |Path(m)|
    ensures Path(m)[d] < |t|
  {
    PathIds(m);
    assert Path(m)[d] in Ids(m);
  }

  lemma NewAfter(sh: Shift, rest: seq<nat>, size: nat)
    requires rest != [] && sh.secBase == size && forall x :: x in rest ==> sh.secDrop < x
    ensures RenIds(sh, rest)[0] >= size
  {
    assert rest[0] in rest;
  }

  /**
   * A part whose tree ends in a section that cannot be extended leaves open what the merged tree ends in, except
   * when its root keeps no element and its tree turns off the open path above its end.
   */
  lemma ClosedExactly(
      parts: seq<Part>, shapes: seq<Shape>, t: seq<Section>, ats: seq<At>, m: Forest, f: Forest, sh: Shift)
    requires sh.k < |parts| && sh.k < |shapes| && sh.secBase == |t| && sh.prevEnd <= sh.start
    requires sh.secDrop == SecDrop(shapes[sh.k]) && SecsTo(parts, shapes, sh.k) == |t|
    requires Placed(parts, shapes, ats) && OpenIn(t, m, WhereAll(parts, shapes, ats)) && Tree(t, m)
    requires Tree(parts[sh.k].sections, f) && Fits(parts[sh.k], shapes[sh.k], |ats|, f)
    requires parts[sh.k].sections != [] && ShapeOf(parts[sh.k], sh.k, |ats|) == Ok(shapes[sh.k])
    requires !PathExtensible(parts[sh.k], f)
    ensures var p, s := parts[sh.k], shapes[sh.k];
            var next := NextOpen(p, sh.k, ats, s);
            && Placed(parts, shapes, next)
            && (OpenIn(AddPart(t, WhereAll(parts, shapes, ats), p, s, sh), Joined(m, f, s, |ats|, sh),
                       WhereAll(parts, shapes, next))
                <==> !Stale(p, s, |ats|))
  {
    hide *;
    var p, s, depth := parts[sh.k], shapes[sh.k], |ats|;
    var open, next := WhereAll(parts, shapes, ats), NextOpen(p, sh.k, ats, s);
    PathBlocked(p, f);
    SomePath(p, f);
    FitsBounds(p, s, depth, f);
    NotMoved(p, s, depth, f);
    NextBlocked(p, sh.k, ats, s);
    StaleIs(p, s, depth);
    OpenIs(t, m, open);
    var r, j := AddPart(t, open, p, s, sh), Joined(m, f, s, depth, sh);
    if next == [] {
      NothingPlaced(parts, shapes);
      OpenNothing(r, j);
    } else {
      var c, turn, below := TurnAt(p, f, s, depth);
      TurnIs(p, f, s, depth, c, turn, below);
      TurnsParts(f, s, depth, c, turn, below);
      BlockedBelow(p, sh.k, f, s, depth, c, below);
      RenNothing(sh, Adds(f, s, depth), turn);
      ExtendedPath(m, RenAdds(sh, Adds(f, s, depth)), turn);
      JoinedIs(m, f, s, depth, sh);
      RenPath(sh, below);
      forall x | x in Path(below) ensures SecDrop(s) < x < |p.sections| {
        BelowKept(f, s, depth, p.sections, turn, x);
      }
      OldStayOpen(t, open, m, p, s, sh);
      OpenIs(r, j, open);
      assert Path(j) == Path(m)[..turn] + RenIds(sh, Path(below));
      if turn == depth {
        assert Path(j)[..depth] == Path(m)[..depth];
      } else {
        OldBefore(t, m, turn);
        NewAfter(sh, Path(below), |t|);
        assert open[turn] == Path(m)[turn];
        assert Path(j)[turn] == RenIds(sh, Path(below))[0];
        assert |open| <= |Path(j)| ==> Path(j)[..|open|][turn] == Path(j)[turn];
      }
    }
  }

  lemma NotMoved(p: Part, s: Shape, depth: nat, f: Forest)
    requires Fits(p, s, depth, f) && !PathExtensible(p, f)
    ensures !s.Moved? && (s.Chain? ==> s.n <= depth)
  {}

  lemma StaleIs(p: Part, s: Shape, depth: nat)
    ensures Stale(p, s, depth) <==> depth > 0 && |RootElems(p)| <= RootDrop(s) && TurnDepth(p, s, depth) < depth
  {}

  lemma NothingPlaced(parts: seq<Part>, shapes: seq<Shape>)
    ensures Placed(parts, shapes, []) && WhereAll(parts, shapes, []) == []
  {}

  /** A part after which the sections left open are where the merged tree ends. */
  ghost predicate Steady(p: Part, f: Forest, s: Shape, depth: nat) {
    PathExtensible(p, f) || !Stale(p, s, depth)
  }

  ghost predicate SteadyAt(parts: seq<Part>, shapes: seq<Shape>, forests: seq<Forest>, k: nat)
    requires k < |parts| == |shapes| == |forests|
  {
    if parts[k].sections == [] then forests[k] == []
    else
      && Tree(parts[k].sections, forests[k])
      && PlanTo(parts, k).Ok? && Steady(parts[k], forests[k], shapes[k], |Open(parts, k)|)
  }

  ghost predicate AllSteady(parts: seq<Part>, shapes: seq<Shape>, forests: seq<Forest>) {
    |parts| == |shapes| == |forests| && forall k :: 0 <= k < |parts| ==> SteadyAt(parts, shapes, forests, k)
  }

  lemma SteadyOpen(
      parts: seq<Part>, shapes: seq<Shape>, t: seq<Section>, ats: seq<At>, m: Forest, f: Forest, sh: Shift)
    requires sh.k < |parts| && sh.k < |shapes| && sh.secBase == |t| && sh.prevEnd <= sh.start
    requires sh.secDrop == SecDrop(shapes[sh.k]) && SecsTo(parts, shapes, sh.k) == |t|
    requires Placed(parts, shapes, ats) && OpenIn(t, m, WhereAll(parts, shapes, ats)) && Tree(t, m)
    requires Tree(parts[sh.k].sections, f) && Fits(parts[sh.k], shapes[sh.k], |ats|, f)
    requires parts[sh.k].sections != [] && ShapeOf(parts[sh.k], sh.k, |ats|) == Ok(shapes[sh.k])
    requires Steady(parts[sh.k], f, shapes[sh.k], |ats|)
    ensures var p, s := parts[sh.k], shapes[sh.k];
            var next := NextOpen(p, sh.k, ats, s);
            && Placed(parts, shapes, next)
            && OpenIn(AddPart(t, WhereAll(parts, shapes, ats), p, s, sh), Joined(m, f, s, |ats|, sh),
                      WhereAll(parts, shapes, next))
  {
    hide *;
    SteadyIs(parts[sh.k], f, shapes[sh.k], |ats|);
    if PathExtensible(parts[sh.k], f) {
      NextOpenIn(parts, shapes, t, ats, m, f, sh);
    } else {
      ClosedExactly(parts, shapes, t, ats, m, f, sh);
    }
  }

  lemma SteadyIs(p: Part, f: Forest, s: Shape, depth: nat)
    ensures Steady(p, f, s, depth) <==> PathExtensible(p, f) || !Stale(p, s, depth)
  {}

  lemma SteadyHolds(
      parts: seq<Part>, shapes: seq<Shape>, sep: nat, forests: seq<Forest>, k: nat,
      open: seq<At>, t: seq<Section>, open': seq<At>, t': seq<Section>, m: Forest) returns (m': Forest)
    requires k < |parts| == |shapes| == |forests| && Placed(parts, shapes, open)
    requires Step(parts, shapes, sep, k, open, t, open', t') && Holds(parts, shapes, sep, forests, k, open, t, m)
    requires parts[k].sections != [] && Tree(parts[k].sections, forests[k])
    requires Steady(parts[k], forests[k], shapes[k], |open|)
    ensures Holds(parts, shapes, sep, forests, k + 1, open', t', m')
  {
    var p, f, s, sh := parts[k], forests[k], shapes[k], ShiftOf(parts, shapes, sep, k);
    ShapeFits(p, k, |open|, f);
    hide ShapeOf, NextOpen, PathExtensible, Stale, Steady;
    StepTree(t, WhereAll(parts, shapes, open), m, p, f, s, sh);
    SteadyOpen(parts, shapes, t, open, m, f, sh);
    m' := Joined(m, f, s, |open|, sh);
    hide Joined, Fits, Tree;
  }

  lemma NothingSteady(
      parts: seq<Part>, shapes: seq<Shape>, sep: nat, forests: seq<Forest>, k: nat,
      open: seq<At>, t: seq<Section>, open': seq<At>, t': seq<Section>, m: Forest)
    requires k < |parts| == |shapes| == |forests| && Placed(parts, shapes, open) && forests[k] == []
    requires Step(parts, shapes, sep, k, open, t, open', t') && Holds(parts, shapes, sep, forests, k, open, t, m)
    requires parts[k].sections == []
    ensures Holds(parts, shapes, sep, forests, k + 1, open', t', m)
  {
    assert RenElems(ShiftOf(parts, shapes, sep, k), Leaves([])) == [];
    assert Leaves(m) + [] == Leaves(m);
  }

  lemma SteadyAtIs(parts: seq<Part>, shapes: seq<Shape>, forests: seq<Forest>, k: nat)
    requires k < |parts| && AllSteady(parts, shapes, forests)
    ensures parts[k].sections == [] ==> forests[k] == []
    ensures parts[k].sections != [] ==>
              && Tree(parts[k].sections, forests[k])
              && PlanTo(parts, k).Ok? && Steady(parts[k], forests[k], shapes[k], |Open(parts, k)|)
  {
    assert SteadyAt(parts, shapes, forests, k);
  }

  lemma {:induction false} SteadyAll(
      parts: seq<Part>, shapes: seq<Shape>, sep: nat, forests: seq<Forest>, j: nat) returns (m: Forest)
    requires j <= |parts| == |shapes| == |forests| && PlanTo(parts, j).Ok?
    requires Planned(parts, shapes, j) && AllSteady(parts, shapes, forests)
    ensures Holds(parts, shapes, sep, forests, j, Open(parts, j), TableTo(parts, shapes, sep, j), m)
    decreases j
  {
    hide *;
    if j == 0 {
      m := NothingHolds(parts, shapes, sep, forests);
    } else {
      Stepped(parts, shapes, sep, j);
      SteadyAtIs(parts, shapes, forests, j - 1);
      m := SteadyAll(parts, shapes, sep, forests, j - 1);
      var open, t := Open(parts, j - 1), TableTo(parts, shapes, sep, j - 1);
      if parts[j - 1].sections == [] {
        NothingSteady(parts, shapes, sep, forests, j - 1, open, t, Open(parts, j), TableTo(parts, shapes, sep, j), m);
      } else {
        m := SteadyHolds(parts, shapes, sep, forests, j - 1, open, t, Open(parts, j),
                         TableTo(parts, shapes, sep, j), m);
      }
    }
  }
}
