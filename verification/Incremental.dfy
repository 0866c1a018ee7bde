/**
 * The merged sections, one part at a time: each part's own sections follow those of the parts
 * before it, and what continues an open section is appended to it at once. The merge itself plans
 * every part first and writes afterwards (Merger); this is what it must come to.
 */
module Incremental {
  import opened Lists
  import opened Sections
  import opened Forest
  import opened Lead
  import opened Renumber
  import opened Fold

  /** sec with elements and spans of a later part appended to those it has. */
  function Grow(sec: Section, elems: seq<Elem>, sh: Shift, spans: seq<Span>): Section
    requires sh.prevEnd <= sh.start
  {
    Section(if sec.elements.Some? then Some(sec.elements.value + elems) else None,
            if sec.spans.Some? then Some(Append(sh, sec.spans.value, spans)) else None)
  }

  function GrowRoot(root: Section, p: Part, s: Shape, depth: nat, sh: Shift): Section
    requires sh.prevEnd <= sh.start && p.sections != []
  {
    RootWith(root, p.sections[0], sh, ShareElems(p, s, depth, 0), RootSpans(p))
  }

  /** The merged root with elems and spans of a part's root, own, which may have neither. */
  function RootWith(root: Section, own: Section, sh: Shift, elems: seq<Elem>, spans: seq<Span>): Section
    requires sh.prevEnd <= sh.start
  {
    Section(if own.elements.Some? then Some(Elems(root) + RenElems(sh, elems)) else root.elements,
            if own.spans.Some? then Some(Append(sh, Spans(root), spans)) else root.spans)
  }

  function RenSection(sh: Shift, sec: Section): Section {
    Section(if sec.elements.Some? then Some(RenElems(sh, sec.elements.value)) else None,
            if sec.spans.Some? then Some(Shifted(sh, sec.spans.value)) else None)
  }

  /** Where x first is in s, or |s|. */
  function Find(s: seq<nat>, x: nat): (i: nat)
    ensures i <= |s| && (i < |s| <==> x in s) && (i < |s| ==> s[i] == x)
    ensures x !in s[..i]
    decreases |s|
  {
    if s == [] || s[0] == x then 0 else
    var i := Find(s[1..], x);
    assert s == [s[0]] + s[1..];
    assert s[..i + 1] == [s[0]] + s[1..][..i];
    i + 1
  }

  function GrowAt(t: seq<Section>, open: seq<nat>, p: Part, s: Shape, sh: Shift, x: nat): Section
    requires sh.prevEnd <= sh.start && p.sections != [] && x < |t|
  {
    if x == 0 then GrowRoot(t[0], p, s, |open|, sh)
    else if x in open then
      var d := Find(open, x) + 1;
      Grow(t[x], RenElems(sh, ShareElems(p, s, |open|, d)), sh, ShareSpans(p, s, d))
    else t[x]
  }

  /** The merged table with part p added, when the sections open are left open before it. */
  function AddPart(t: seq<Section>, open: seq<nat>, p: Part, s: Shape, sh: Shift): (r: seq<Section>)
    requires sh.prevEnd <= sh.start && p.sections != []
    ensures |r| == |t| + Kept(p, s)
  {
    seq(|t|, x requires 0 <= x < |t| => GrowAt(t, open, p, s, sh, x))
    + seq(Kept(p, s), i requires 0 <= i < Kept(p, s) => RenSection(sh, p.sections[1 + SecDrop(s) + i]))
  }

  function Where(parts: seq<Part>, shapes: seq<Shape>, at: At): nat
    requires at.k < |parts| && at.k < |shapes|
  {
    RenSec(ShiftOf(parts, shapes, 0, at.k), at.i)
  }

  ghost predicate Placed(parts: seq<Part>, shapes: seq<Shape>, ats: seq<At>) {
    forall d :: 0 <= d < |ats| ==> ats[d].k < |parts| && ats[d].k < |shapes|
  }

  function WhereAll(parts: seq<Part>, shapes: seq<Shape>, ats: seq<At>): (r: seq<nat>)
    requires Placed(parts, shapes, ats)
    ensures |r| == |ats|
    ensures forall d :: 0 <= d < |ats| ==> r[d] == Where(parts, shapes, ats[d])
  {
    seq(|ats|, d requires 0 <= d < |ats| => Where(parts, shapes, ats[d]))
  }

  function RenAdds(sh: Shift, adds: seq<Forest>): (r: seq<Forest>)
    ensures |r| == |adds|
    ensures forall d :: 0 <= d < |adds| ==> r[d] == RenForest(sh, adds[d])
    decreases |adds|
  {
    if adds == [] then [] else [RenForest(sh, adds[0])] + RenAdds(sh, adds[1..])
  }

  lemma {:induction false} FlatRen(sh: Shift, adds: seq<Forest>)
    ensures Flat(RenAdds(sh, adds)) == RenForest(sh, Flat(adds))
    decreases |adds|
  {
    if adds != [] {
      FlatRen(sh, adds[1..]);
      RenConcat(sh, Flat(adds[1..]), adds[0]);
    }
  }

  /** The merged tree with a part's tree added. */
  ghost function Joined(m: Forest, f: Forest, s: Shape, depth: nat, sh: Shift): Forest
    requires s.Run? || s.Moved? ==> depth > 0
    requires s.Chain? ==> s.n <= depth
    requires s.Run? ==> s.n <= |f|
    requires depth <= |Path(m)|
  {
    Extend(m, RenAdds(sh, Adds(f, s, depth)))
  }

  /** open is where the merged tree ends, as deep as it goes, and can be extended there. */
  ghost predicate OpenIn(t: seq<Section>, m: Forest, open: seq<nat>) {
    && |open| <= |Path(m)|
    && open == Path(m)[..|open|]
    && forall d :: 0 <= d < |open| ==> open[d] < |t| && Extensible(t[open[d]])
  }

  lemma {:induction false} PathDistinct(f: Forest)
    requires Distinct(Ids(f))
    ensures Distinct(Path(f))
    decreases f
  {
    if f != [] && f[|f| - 1].S? {
      LastOff(f);
      var last := f[|f| - 1];
      DistinctParts(Ids(f[..|f| - 1]), [last.i], Ids(last.kids));
      PathDistinct(last.kids);
      PathIds(last.kids);
      DistinctCons(last.i, Path(last.kids));
    }
  }

  lemma DistinctCons(x: nat, s: seq<nat>)
    requires Distinct(s) && x !in s
    ensures Distinct([x] + s)
  {}

  /** An open section, in the merged table with a part added. */
  lemma AddedAt(t: seq<Section>, open: seq<nat>, m: Forest, p: Part, s: Shape, sh: Shift, d: nat)
    requires sh.prevEnd <= sh.start && p.sections != []
    requires Tree(t, m) && OpenIn(t, m, open) && d < |open|
    ensures open[d] in Ids(m) && open[d] != 0 && Find(open, open[d]) == d
    ensures AddPart(t, open, p, s, sh)[open[d]]
         == Grow(t[open[d]], RenElems(sh, ShareElems(p, s, |open|, d + 1)), sh, ShareSpans(p, s, d + 1))
  {
    hide *;
    OpenAt(t, m, open, d);
    FindsAt(open, d);
    AddedOpen(t, open, p, s, sh, d);
  }

  /** The open sections are some of the tree's, each once. */
  lemma OpenAt(t: seq<Section>, m: Forest, open: seq<nat>, d: nat)
    requires Tree(t, m) && OpenIn(t, m, open) && d < |open|
    ensures Distinct(open) && open[d] in Ids(m) && 0 < open[d] < |t| && Extensible(t[open[d]]) && open[d] == Path(m)[d]
  {
    hide Extensible, Reps, Top, Elems, Path, Ids;
    PathIds(m);
    PathDistinct(m);
    assert open[d] == Path(m)[d];
    assert forall i :: 0 <= i < |open| ==> open[i] == Path(m)[i];
  }

  lemma FindsAt(open: seq<nat>, d: nat)
    requires Distinct(open) && d < |open|
    ensures open[d] in open && Find(open, open[d]) == d
  {}

  lemma AddedOpen(t: seq<Section>, open: seq<nat>, p: Part, s: Shape, sh: Shift, d: nat)
    requires sh.prevEnd <= sh.start && p.sections != [] && d < |open|
    requires 0 < open[d] < |t| && Find(open, open[d]) == d
    ensures AddPart(t, open, p, s, sh)[open[d]]
         == Grow(t[open[d]], RenElems(sh, ShareElems(p, s, |open|, d + 1)), sh, ShareSpans(p, s, d + 1))
  {
    hide Grow, ShareElems, ShareSpans, RenElems, Shifted, GrowRoot;
    assert AddPart(t, open, p, s, sh)[open[d]] == GrowAt(t, open, p, s, sh, open[d]);
  }

  lemma AddedRoot(t: seq<Section>, open: seq<nat>, p: Part, s: Shape, sh: Shift)
    requires sh.prevEnd <= sh.start && p.sections != [] && t != []
    ensures AddPart(t, open, p, s, sh)[0] == GrowRoot(t[0], p, s, |open|, sh)
  {}

  lemma AddedOther(t: seq<Section>, open: seq<nat>, p: Part, s: Shape, sh: Shift, i: nat)
    requires sh.prevEnd <= sh.start && p.sections != [] && 0 < i < |t| && i !in open
    ensures SameAt(t, AddPart(t, open, p, s, sh), i)
  {
    hide Grow, ShareElems, ShareSpans, RenElems, Shifted, GrowRoot;
    assert AddPart(t, open, p, s, sh)[i] == GrowAt(t, open, p, s, sh, i);
  }

  lemma Grows(a: seq<Section>, b: seq<Section>, x: nat, elems: seq<Elem>, add: Forest, sh: Shift, spans: seq<Span>)
    requires sh.prevEnd <= sh.start && x < |a| && x < |b| && Extensible(a[x]) && Top(add) == elems
    requires b[x] == Grow(a[x], elems, sh, spans)
    ensures MoreAt(a, b, x, add)
  {}

  lemma GrownFrom(a: seq<Section>, b: seq<Section>, f: Forest, open: seq<nat>, adds: seq<Forest>)
    requires |adds| == |open| + 1 <= |Path(f)| + 1 && open == Path(f)[..|open|] && |a| <= |b|
    requires forall i :: i in Ids(f) && i !in open ==> SameAt(a, b, i)
    requires forall d :: 0 <= d < |open| ==> MoreAt(a, b, Path(f)[d], adds[d + 1])
    ensures Grown(a, b, f, adds)
  {}

  lemma OpenParts(t: seq<Section>, m: Forest, open: seq<nat>)
    requires Tree(t, m) && OpenIn(t, m, open)
    ensures |open| <= |Path(m)| && open == Path(m)[..|open|] && forall i :: i in Ids(m) ==> 0 < i < |t|
  {}

  /** The old sections of the merged table, with a part added. */
  lemma AddedGrown(t: seq<Section>, open: seq<nat>, m: Forest, p: Part, f: Forest, s: Shape, sh: Shift)
    requires sh.prevEnd <= sh.start && p.sections != []
    requires Tree(t, m) && OpenIn(t, m, open)
    requires Reps(p.sections, f) && Top(f) == RootElems(p) && Fits(p, s, |open|, f)
    ensures Grown(t, AddPart(t, open, p, s, sh), m, RenAdds(sh, Adds(f, s, |open|)))
  {
    hide *;
    FitsBounds(p, s, |open|, f);
    OpenParts(t, m, open);
    var pieces := Adds(f, s, |open|);
    var adds, r := RenAdds(sh, pieces), AddPart(t, open, p, s, sh);
    forall i | i in Ids(m) && i !in open ensures SameAt(t, r, i) { AddedOther(t, open, p, s, sh, i); }
    forall d | 0 <= d < |open| ensures MoreAt(t, r, Path(m)[d], adds[d + 1]) {
      AddedAt(t, open, m, p, s, sh, d);
      OpenAt(t, m, open, d);
      AddsTop(p, f, s, |open|, d + 1);
      RenTop(sh, pieces[d + 1]);
      Grows(t, r, open[d], RenElems(sh, ShareElems(p, s, |open|, d + 1)), adds[d + 1], sh, ShareSpans(p, s, d + 1));
    }
    GrownFrom(t, r, m, open, adds);
  }

  /** The part's kept sections, in the merged table. */
  lemma AddedReps(t: seq<Section>, open: seq<nat>, p: Part, f: Forest, s: Shape, sh: Shift, d: nat)
    requires sh.prevEnd <= sh.start && sh.secBase == |t| && sh.secDrop == SecDrop(s)
    requires Tree(p.sections, f) && Fits(p, s, |open|, f) && d <= |open|
    ensures Reps(AddPart(t, open, p, s, sh), RenForest(sh, Adds(f, s, |open|)[d]))
  {
    var adds := Adds(f, s, |open|);
    AddsTop(p, f, s, |open|, d);
    FlatAdds(f, s, |open|);
    FlatIds(adds, d);
    KeptNumbers(Ids(f), SecDrop(s), Ids(Flat(adds)), |p.sections|);
    forall i: nat ensures Lands(p.sections, AddPart(t, open, p, s, sh), sh, i) {
      if sh.secDrop < i < |p.sections| { AddedNew(t, open, p, s, sh, i); }
    }
    RenReps(p.sections, AddPart(t, open, p, s, sh), sh, adds[d]);
  }

  lemma AddedNew(t: seq<Section>, open: seq<nat>, p: Part, s: Shape, sh: Shift, i: nat)
    requires sh.prevEnd <= sh.start && sh.secBase == |t| && sh.secDrop == SecDrop(s)
    requires SecDrop(s) < i < |p.sections|
    ensures |t| <= RenSec(sh, i) < |AddPart(t, open, p, s, sh)|
    ensures AddPart(t, open, p, s, sh)[RenSec(sh, i)] == RenSection(sh, p.sections[i])
  {
    var x := RenSec(sh, i);
    assert 1 + SecDrop(s) + (x - |t|) == i;
  }

  lemma {:induction false} FlatIds(adds: seq<Forest>, d: nat)
    requires d < |adds|
    ensures forall i :: i in Ids(adds[d]) ==> i in Ids(Flat(adds))
    decreases |adds|
  {
    Concat(Flat(adds[1..]), adds[0]);
    if d > 0 { FlatIds(adds[1..], d - 1); }
  }

  /** Past the first n ids, which are 1 to n, the others are greater. */
  lemma KeptIds(ids: seq<nat>, n: nat, rest: seq<nat>, i: nat)
    requires ids == Range(1, n) + rest && Distinct(ids) && (forall x :: x in ids ==> 1 <= x) && i in rest
    ensures n < i
  {
    var k :| 0 <= k < |rest| && rest[k] == i;
    assert ids[n + k] == i && i in ids;
    var w := if i <= n then i - 1 else n + k;
    assert ids[w] == i;
  }

  lemma KeptNumbers(ids: seq<nat>, n: nat, rest: seq<nat>, hi: nat)
    requires ids == Range(1, n) + rest && Numbers(ids, 1, hi) && n < hi
    ensures Numbers(rest, n + 1, hi)
  {
    forall i, j | 0 <= i < j < |rest| ensures rest[i] != rest[j] {
      assert ids[n + i] == rest[i] && ids[n + j] == rest[j];
    }
    forall x ensures x in rest <==> n + 1 <= x < hi {
      if x in rest {
        KeptIds(ids, n, rest, x);
        assert x in ids;
      }
      if n + 1 <= x < hi {
        assert x in ids;
        var k :| 0 <= k < |ids| && ids[k] == x;
        assert k >= n && rest[k - n] == x;
      }
    }
  }

  lemma NumbersJoin(a: seq<nat>, b: seq<nat>, lo: nat, mid: nat, hi: nat)
    requires Numbers(a, lo, mid) && Numbers(b, mid, hi) && lo <= mid <= hi
    ensures Numbers(a + b, lo, hi)
  {
    forall i, j | 0 <= i < j < |a + b| ensures (a + b)[i] != (a + b)[j] {
      if i < |a| { assert (a + b)[i] in a; }
      if j >= |a| { assert (a + b)[j] in b; }
    }
    forall x ensures x in a + b <==> lo <= x < hi {
      assert x in a + b <==> x in a || x in b;
    }
  }

  /**
   * Adding a part's tree to the merged tree gives the merged tree of one part more: its leaves are
   * those of both in document order, renumbered, and every section of either is in it once, less
   * the part's folded ones.
   */
  lemma StepTree(t: seq<Section>, open: seq<nat>, m: Forest, p: Part, f: Forest, s: Shape, sh: Shift)
    requires sh.prevEnd <= sh.start && sh.secBase == |t| && sh.secDrop == SecDrop(s)
    requires Tree(t, m) && OpenIn(t, m, open)
    requires Tree(p.sections, f) && Fits(p, s, |open|, f)
    ensures Tree(AddPart(t, open, p, s, sh), Joined(m, f, s, |open|, sh))
    ensures Leaves(Joined(m, f, s, |open|, sh)) == Leaves(m) + RenElems(sh, Leaves(f))
  {
    StepReps(t, open, m, p, f, s, sh);
    StepIds(t, open, m, p, f, s, sh);
  }

  lemma StepReps(t: seq<Section>, open: seq<nat>, m: Forest, p: Part, f: Forest, s: Shape, sh: Shift)
    requires sh.prevEnd <= sh.start && sh.secBase == |t| && sh.secDrop == SecDrop(s)
    requires Tree(t, m) && OpenIn(t, m, open)
    requires Tree(p.sections, f) && Fits(p, s, |open|, f)
    ensures var r, j := AddPart(t, open, p, s, sh), Joined(m, f, s, |open|, sh);
            Reps(r, j) && Elems(r[0]) == Top(j)
  {
    var r := AddPart(t, open, p, s, sh);
    var pieces := Adds(f, s, |open|);
    var adds := RenAdds(sh, pieces);
    AddedGrown(t, open, m, p, f, s, sh);
    forall d | 0 <= d < |adds| ensures Reps(r, adds[d]) {
      AddedReps(t, open, p, f, s, sh, d);
    }
    ExtendReps(t, r, m, adds);
    RootAdded(t, open, p, f, s, sh);
  }

  lemma RootAdded(t: seq<Section>, open: seq<nat>, p: Part, f: Forest, s: Shape, sh: Shift)
    requires sh.prevEnd <= sh.start && t != []
    requires Tree(p.sections, f) && Fits(p, s, |open|, f)
    ensures Elems(AddPart(t, open, p, s, sh)[0]) == Elems(t[0]) + Top(RenForest(sh, Adds(f, s, |open|)[0]))
  {
    var add := Adds(f, s, |open|)[0];
    AddsTop(p, f, s, |open|, 0);
    RenTop(sh, add);
    assert AddPart(t, open, p, s, sh)[0] == GrowRoot(t[0], p, s, |open|, sh);
    if p.sections[0].elements.None? {
      assert f == [];
      assert ShareElems(p, s, |open|, 0) == [];
      assert Elems(t[0]) + [] == Elems(t[0]);
    }
  }

  lemma StepIds(t: seq<Section>, open: seq<nat>, m: Forest, p: Part, f: Forest, s: Shape, sh: Shift)
    requires sh.prevEnd <= sh.start && sh.secBase == |t| && sh.secDrop == SecDrop(s)
    requires Tree(t, m) && OpenIn(t, m, open)
    requires Tree(p.sections, f) && Fits(p, s, |open|, f)
    ensures var r, j := AddPart(t, open, p, s, sh), Joined(m, f, s, |open|, sh);
            Numbers(Ids(j), 1, |r|) && Leaves(j) == Leaves(m) + RenElems(sh, Leaves(f))
  {
    var pieces := Adds(f, s, |open|);
    var flat := Flat(pieces);
    Extended(m, RenAdds(sh, pieces));
    FlatRen(sh, pieces);
    FlatAdds(f, s, |open|);
    RenContents(sh, flat);
    KeptNumbers(Ids(f), SecDrop(s), Ids(flat), |p.sections|);
    RenNumbers(sh, Ids(flat), |p.sections|);
    NumbersJoin(Ids(m), RenIds(sh, Ids(flat)), 1, |t|, |t| + Kept(p, s));
  }
}
