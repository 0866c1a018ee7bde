/** The merged sections' spans, part by part (internal/merge/continue.go, sections.go). */
module SpanMerge {
  import opened Sections
  import opened Forest
  import opened Lead
  import opened Renumber
  import opened Fold
  import opened Incremental
  import opened LeftOpen
  import opened Document
  import opened Grafting
  import opened AnyTree
  import opened Orderly
  import opened SpanSets
  import opened Coverage

  /** The spans depth d of the open path takes of a part: the root all its own. */
  function ShareOf(p: Part, s: Shape, d: nat): seq<Span> { if d == 0 then RootSpans(p) else ShareSpans(p, s, d) }

  function Shares(p: Part, s: Shape, depth: nat): (r: seq<seq<Span>>)
    ensures |r| == depth + 1
    ensures forall d :: 0 <= d <= depth ==> r[d] == ShareOf(p, s, d)
  {
    seq(depth + 1, d requires 0 <= d <= depth => ShareOf(p, s, d))
  }

  lemma PeelStep(f: Forest, i: nat, n: nat, t: nat)
    requires Opens(f, i, n) && t <= n
    ensures n > 0 ==> f != [] && f[0].S? && f[0].i == i && Opens(f[0].kids, i + 1, n - 1)
    ensures n > 0 ==> Peel(f, n)[t] == if t == 0 then f[1..] else Peel(f[0].kids, n - 1)[t - 1]
    ensures n == 0 ==> Peel(f, n)[t] == f
  {}

  lemma NestsStep(secs: seq<Section>, f: Forest, outer: seq<Span>)
    requires Nests(secs, f, outer) && f != [] && f[0].S?
    ensures var i := f[0].i;
            && i < |secs| && Clean(Spans(secs[i])) && Covers(outer, Spans(secs[i]))
            && Nests(secs, f[0].kids, Spans(secs[i])) && Nests(secs, f[1..], outer)
  {
    assert ItemNests(secs, f[0], outer);
  }

  /** Opened up, each section of a chain covers the next, and what is left at its level. */
  lemma {:induction false} PeelNests(secs: seq<Section>, f: Forest, i: nat, n: nat, t: nat, outer: seq<Span>)
    requires Nests(secs, f, outer) && Opens(f, i, n) && t <= n && i > 0
    ensures t > 0 ==> i + t - 1 < |secs| && Clean(Spans(secs[i + t - 1]))
    ensures t == 1 ==> Covers(outer, Spans(secs[i]))
    ensures t > 1 ==> Covers(Spans(secs[i + t - 2]), Spans(secs[i + t - 1]))
    ensures Nests(secs, Peel(f, n)[t], if t == 0 then outer else Spans(secs[i + t - 1]))
    decreases n
  {
    hide *;
    PeelStep(f, i, n, t);
    if n > 0 {
      NestsStep(secs, f, outer);
      if t > 0 { PeelNests(secs, f[0].kids, i + 1, n - 1, t - 1, Spans(secs[i])); }
    }
  }

  lemma NoSpans(outer: seq<Span>)
    ensures Clean([]) && Covers(outer, []) && Covers(outer, outer)
  {}

  lemma NestsNothing(t: seq<Section>, outer: seq<Span>)
    ensures Nests(t, [], outer)
  {}

  /** At depth d: the share is clean, the one above covers it, and it covers what the part puts there. */
  ghost predicate ShareAt(p: Part, f: Forest, s: Shape, depth: nat, d: nat)
    requires d <= depth && (s.Run? || s.Moved? ==> depth > 0) && (s.Chain? ==> s.n <= depth) && (s.Run? ==> s.n <= |f|)
  {
    && Clean(ShareOf(p, s, d))
    && (d > 0 ==> Covers(ShareOf(p, s, d - 1), ShareOf(p, s, d)))
    && Nests(p.sections, Adds(f, s, depth)[d], ShareOf(p, s, d))
  }

  lemma ChainShareIs(p: Part, n: nat, content: bool, d: nat)
    requires 0 < n < |p.sections|
    ensures ShareOf(p, Chain(n, content), d)
      == if d <= n then Spans(p.sections[d]) else if content then Spans(p.sections[n]) else []
  {}

  lemma ChainAddIs(f: Forest, n: nat, content: bool, depth: nat, d: nat)
    requires 0 < n <= depth && d <= depth
    ensures Adds(f, Chain(n, content), depth)[d]
      == if d < n then Peel(f, n)[d] else if d == (if content then depth else n) then Peel(f, n)[n] else []
  {}

  lemma ChainShare(p: Part, f: Forest, n: nat, content: bool, depth: nat, d: nat)
    requires Covered(p.sections, f, p.length) && 0 < n <= depth && n < |p.sections| && Opens(f, 1, n) && d <= depth
    ensures ShareAt(p, f, Chain(n, content), depth, d)
  {
    hide *;
    var s := Chain(n, content);
    var i := if d < n then d else n;
    var secs := p.sections;
    CoveredParts(secs, f, p.length);
    PeelNests(secs, f, 1, n, i, Spans(secs[0]));
    ChainShareIs(p, n, content, d);
    if d > 0 { ChainShareIs(p, n, content, d - 1); }
    ChainAddIs(f, n, content, depth, d);
    NoSpans(ShareOf(p, s, if d > 0 then d - 1 else 0));
    NestsNothing(secs, ShareOf(p, s, d));
    ShareAtIs(p, f, s, depth, d);
  }

  lemma ShareAtIs(p: Part, f: Forest, s: Shape, depth: nat, d: nat)
    requires d <= depth && (s.Run? || s.Moved? ==> depth > 0) && (s.Chain? ==> s.n <= depth) && (s.Run? ==> s.n <= |f|)
    requires Clean(ShareOf(p, s, d)) && (d > 0 ==> Covers(ShareOf(p, s, d - 1), ShareOf(p, s, d)))
    requires Nests(p.sections, Adds(f, s, depth)[d], ShareOf(p, s, d))
    ensures ShareAt(p, f, s, depth, d)
  {}

  lemma RunClipped(p: Part, k: nat, depth: nat) returns (lo: int, hi: int)
    requires p.sections != [] && ShapeOf(p, k, depth).Ok? && ShapeOf(p, k, depth).value.Run?
    ensures ShapeOf(p, k, depth).value.spans == Clip(RootSpans(p), lo, hi)
  {
    var elems := RootElems(p);
    var n := RunLength(p, elems, 0);
    var e := Extent(p, elems[..n]);
    lo, hi := e.0, e.1;
  }

  lemma OtherShare(p: Part, f: Forest, s: Shape, depth: nat, d: nat)
    requires Covered(p.sections, f, p.length) && !s.Chain? && d <= depth
    requires (s.Run? || s.Moved? ==> depth > 0) && (s.Run? ==> s.n <= |f|)
    requires s.Run? ==> Clean(s.spans) && Covers(RootSpans(p), s.spans)
    requires s.Run? ==> forall k :: 0 <= k < s.n ==> f[k].L?
    ensures ShareAt(p, f, s, depth, d)
  {
    hide *;
    CoveredParts(p.sections, f, p.length);
    OtherShareIs(p, s, 0);
    if s.Run? { RunNests(p.sections, f, s.n, RootSpans(p), s.spans); }
    NoSpans(RootSpans(p));
    NoSpans([]);
    NestsNothing(p.sections, ShareOf(p, s, d));
    OtherAddIs(f, s, depth, d);
    OtherShareIs(p, s, d);
    if d > 0 { OtherShareIs(p, s, d - 1); }
    ShareAtIs(p, f, s, depth, d);
  }

  lemma OtherShareIs(p: Part, s: Shape, d: nat)
    requires !s.Chain?
    ensures ShareOf(p, s, d)
      == if d == 0 then RootSpans(p) else if s.Moved? then RootSpans(p) else if s.Run? then s.spans else []
    ensures p.sections != [] ==> RootSpans(p) == Spans(p.sections[0])
  {}

  lemma RunNests(t: seq<Section>, f: Forest, n: nat, outer: seq<Span>, spans: seq<Span>)
    requires n <= |f| && Nests(t, f, outer) && forall k :: 0 <= k < n ==> f[k].L?
    ensures Nests(t, f[n..], outer) && Nests(t, f[..n], spans) && Covers(spans, spans)
  {
    NestsConcat(t, f[..n], f[n..], outer);
    assert f == f[..n] + f[n..];
    LeavesNest(t, f[..n], spans);
  }

  lemma OtherAddIs(f: Forest, s: Shape, depth: nat, d: nat)
    requires !s.Chain? && d <= depth && (s.Run? || s.Moved? ==> depth > 0) && (s.Run? ==> s.n <= |f|)
    ensures s.Apart? ==> Adds(f, s, depth)[d] == if d == 0 then f else []
    ensures s.Moved? ==> Adds(f, s, depth)[d] == if d == depth then f else []
    ensures s.Run? ==> Adds(f, s, depth)[d] == if d == 0 then f[s.n..] else if d == depth then f[..s.n] else []
  {}

  lemma {:induction false} LeavesNest(t: seq<Section>, f: Forest, outer: seq<Span>)
    requires forall k :: 0 <= k < |f| ==> f[k].L?
    ensures Nests(t, f, outer)
    decreases |f|
  {
    if f != [] { LeavesNest(t, f[1..], outer); }
  }

  lemma RunLeaves(p: Part, k: nat, depth: nat, f: Forest)
    requires p.sections != [] && ShapeOf(p, k, depth).Ok? && ShapeOf(p, k, depth).value.Run? && Top(f) == RootElems(p)
    ensures var n := ShapeOf(p, k, depth).value.n; n <= |f| && forall i :: 0 <= i < n ==> f[i].L?
  {
    TopAt(f);
    var n := ShapeOf(p, k, depth).value.n;
    assert RunOf(p).value.Run?;
    forall i | 0 <= i < n ensures f[i].L? { assert RootElems(p)[i].Leaf?; }
  }

  lemma ShareHolds(p: Part, k: nat, f: Forest, s: Shape, depth: nat, d: nat)
    requires p.sections != [] && Covered(p.sections, f, p.length) && Top(f) == RootElems(p)
    requires ShapeOf(p, k, depth) == Ok(s) && Fits(p, s, depth, f) && d <= depth
    ensures ShareAt(p, f, s, depth, d)
  {
    if s.Chain? {
      hide ShapeOf, ShareAt;
      ChainShare(p, f, s.n, s.content, depth, d);
    } else {
      if s.Run? {
        var lo, hi := RunClipped(p, k, depth);
        ClipCovered(RootSpans(p), lo, hi);
        RunLeaves(p, k, depth, f);
      }
      hide ShapeOf, ShareAt, Clip, Nests, Covers, Clean;
      CoveredParts(p.sections, f, p.length);
      OtherShare(p, f, s, depth, d);
    }
  }

  lemma CoveredParts(t: seq<Section>, f: Forest, length: nat)
    requires Covered(t, f, length)
    ensures t != [] && Clean(Spans(t[0])) && Within(Spans(t[0]), length) && Nests(t, f, Spans(t[0]))
  {}

  lemma SharesFall(p: Part, f: Forest, s: Shape, depth: nat)
    requires (s.Run? || s.Moved? ==> depth > 0) && (s.Chain? ==> s.n <= depth) && (s.Run? ==> s.n <= |f|)
    requires forall d :: 0 <= d <= depth ==> ShareAt(p, f, s, depth, d)
    ensures Falling(Shares(p, s, depth))
  {
    hide Clean, Covers, Nests, ShareOf;
    var shares := Shares(p, s, depth);
    forall d | 0 <= d < |shares| ensures Clean(shares[d]) { assert ShareAt(p, f, s, depth, d); }
    forall d | 0 <= d < |shares| - 1 ensures Covers(shares[d], shares[d + 1]) {
      assert ShareAt(p, f, s, depth, d + 1);
    }
  }

  /** The old sections' spans, in the merged table with a part added. */
  lemma AddedSpans(t: seq<Section>, open: seq<nat>, m: Forest, p: Part, s: Shape, sh: Shift)
    requires sh.prevEnd <= sh.start && p.sections != [] && Stands(t, m, open)
    ensures t != [] && GrownSpans(t, AddPart(t, open, p, s, sh), m, open, sh, Shares(p, s, |open|))
    ensures Spans(AddPart(t, open, p, s, sh)[0]) == Append(sh, Spans(t[0]), RootSpans(p))
  {
    hide *;
    var r, shares := AddPart(t, open, p, s, sh), Shares(p, s, |open|);
    StandsParts(t, m, open);
    AlongDistinct(m, open);
    AddedSize(t, open, p, s, sh);
    forall i | i in Ids(m) && i !in open ensures SameSpans(t, r, i) { OtherSpans(t, open, p, s, sh, i); }
    forall d | 0 <= d < |open| ensures MoreSpans(t, r, open[d], sh, shares[d + 1]) {
      FindsAt(open, d);
      OpenSpans(t, open, p, s, sh, d);
    }
    GrownSpansIs(t, r, m, open, sh, shares);
    AddedRoot(t, open, p, s, sh);
    RootSpansAdded(t[0], p, s, |open|, sh);
  }

  lemma GrownSpansIs(
      a: seq<Section>, b: seq<Section>, f: Forest, open: seq<nat>, sh: Shift, shares: seq<seq<Span>>)
    requires |shares| == |open| + 1 && sh.prevEnd <= sh.start && |a| <= |b|
    requires forall i :: i in Ids(f) && i !in open ==> SameSpans(a, b, i)
    requires forall d :: 0 <= d < |open| ==> MoreSpans(a, b, open[d], sh, shares[d + 1])
    ensures GrownSpans(a, b, f, open, sh, shares)
  {}

  lemma OtherSpans(t: seq<Section>, open: seq<nat>, p: Part, s: Shape, sh: Shift, i: nat)
    requires sh.prevEnd <= sh.start && p.sections != [] && 0 < i < |t| && i !in open
    ensures SameSpans(t, AddPart(t, open, p, s, sh), i)
  {
    assert AddPart(t, open, p, s, sh)[i] == GrowAt(t, open, p, s, sh, i);
  }

  lemma OpenSpans(t: seq<Section>, open: seq<nat>, p: Part, s: Shape, sh: Shift, d: nat)
    requires sh.prevEnd <= sh.start && p.sections != [] && d < |open| && 0 < open[d] < |t| && Extensible(t[open[d]])
    requires Find(open, open[d]) == d
    ensures MoreSpans(t, AddPart(t, open, p, s, sh), open[d], sh, Shares(p, s, |open|)[d + 1])
  {
    hide Append, ShareSpans, ShareElems, RenElems, Kept, RootSpans;
    assert AddPart(t, open, p, s, sh)[open[d]] == GrowAt(t, open, p, s, sh, open[d]);
  }

  lemma RootSpansAdded(root: Section, p: Part, s: Shape, depth: nat, sh: Shift)
    requires sh.prevEnd <= sh.start && p.sections != []
    ensures Spans(GrowRoot(root, p, s, depth, sh)) == Append(sh, Spans(root), RootSpans(p))
  {
    if p.sections[0].spans.None? { assert Append(sh, Spans(root), []) == Spans(root); }
  }

  lemma AddedNests(t: seq<Section>, open: seq<nat>, p: Part, f: Forest, s: Shape, sh: Shift, d: nat)
    requires sh.prevEnd <= sh.start && sh.secBase == |t| && sh.secDrop == SecDrop(s)
    requires Tree(p.sections, f) && Fits(p, s, |open|, f) && d <= |open| && ShareAt(p, f, s, |open|, d)
    ensures Nests(AddPart(t, open, p, s, sh), RenForest(sh, Adds(f, s, |open|)[d]),
                  Shifted(sh, Shares(p, s, |open|)[d]))
  {
    var adds := Adds(f, s, |open|);
    FlatAdds(f, s, |open|);
    FlatIds(adds, d);
    KeptNumbers(Ids(f), SecDrop(s), Ids(Flat(adds)), |p.sections|);
    hide Shifted, Nests, ShareSpans, Reps, Adds;
    forall i: nat ensures LandsSpans(p.sections, AddPart(t, open, p, s, sh), sh, i) {
      if sh.secDrop < i < |p.sections| {
        AddedNew(t, open, p, s, sh, i);
        RenSpans(sh, p.sections[i]);
      }
    }
    NestsShifted(p.sections, AddPart(t, open, p, s, sh), sh, adds[d], Shares(p, s, |open|)[d]);
  }

  lemma RenSpans(sh: Shift, sec: Section)
    ensures Spans(RenSection(sh, sec)) == Shifted(sh, Spans(sec))
  {}

  /** A part added to a table whose spans cover: they still do. */
  lemma StepCovers(t: seq<Section>, open: seq<nat>, m: Forest, p: Part, k: nat, f: Forest, s: Shape, sh: Shift)
    requires sh.prevEnd <= sh.start && sh.secBase == |t| && sh.secDrop == SecDrop(s)
    requires Stands(t, m, open) && Along(m, open) && Covered(t, m, sh.prevEnd)
    requires Tree(p.sections, f) && Top(f) == RootElems(p) && Covered(p.sections, f, p.length)
    requires ShapeOf(p, k, |open|) == Ok(s) && Fits(p, s, |open|, f)
    requires (s.Run? || s.Moved? ==> |open| > 0) && (s.Chain? ==> s.n <= |open|) && (s.Run? ==> s.n <= |f|)
    ensures Covered(AddPart(t, open, p, s, sh), Merged(m, open, f, s, sh), sh.start + p.length)
  {
    hide *;
    StandsParts(t, m, open);
    PartParts(p, f);
    var r, pieces, shares := AddPart(t, open, p, s, sh), Adds(f, s, |open|), Shares(p, s, |open|);
    var adds := RenAdds(sh, pieces);
    CoveredParts(t, m, sh.prevEnd);
    CoveredParts(p.sections, f, p.length);
    forall d | 0 <= d <= |open| ensures ShareAt(p, f, s, |open|, d) { ShareHolds(p, k, f, s, |open|, d); }
    SharesFall(p, f, s, |open|);
    AddedSpans(t, open, m, p, s, sh);
    forall d | 0 <= d < |adds| ensures Nests(r, adds[d], Shifted(sh, shares[d])) {
      AddedNests(t, open, p, f, s, sh, d);
    }
    AllNestIs(r, adds, shares, sh);
    GraftNests(t, r, m, open, adds, sh, shares, Spans(t[0]));
    RootShareIs(p, s, |open|);
    AppendClean(sh, Spans(t[0]), RootSpans(p), p.length);
    MergedIs(m, open, f, s, sh);
    CoveredIs(r, Merged(m, open, f, s, sh), sh.start + p.length);
  }

  lemma AllNestIs(t: seq<Section>, adds: seq<Forest>, shares: seq<seq<Span>>, sh: Shift)
    requires |adds| == |shares| && forall d :: 0 <= d < |adds| ==> Nests(t, adds[d], Shifted(sh, shares[d]))
    ensures AllNest(t, adds, shares, sh)
  {}

  lemma RootShareIs(p: Part, s: Shape, depth: nat)
    ensures Shares(p, s, depth)[0] == RootSpans(p) && (p.sections != [] ==> RootSpans(p) == Spans(p.sections[0]))
  {}

  lemma CoveredIs(t: seq<Section>, f: Forest, length: nat)
    requires t != [] && Clean(Spans(t[0])) && Within(Spans(t[0]), length) && Nests(t, f, Spans(t[0]))
    ensures Covered(t, f, length)
  {}

  /** Where the content of the first j parts ends. */
  function EndTo(parts: seq<Part>, sep: nat, j: nat): nat
    requires j <= |parts|
  {
    if j == 0 then 0 else CharTo(parts, sep, j - 1) + parts[j - 1].length
  }

  ghost predicate AllCovered(parts: seq<Part>, forests: seq<Forest>) {
    && |forests| == |parts|
    && forall k :: 0 <= k < |parts| && parts[k].sections != [] ==>
        Covered(parts[k].sections, forests[k], parts[k].length)
  }

  lemma EndsRise(parts: seq<Part>, shapes: seq<Shape>, sep: nat, j: nat)
    requires j < |parts| == |shapes|
    ensures EndTo(parts, sep, j) <= EndTo(parts, sep, j + 1)
    ensures var sh := ShiftOf(parts, shapes, sep, j);
            && sh.prevEnd == EndTo(parts, sep, j) <= sh.start && sh.start + parts[j].length == EndTo(parts, sep, j + 1)
            && sh.secBase == SecsTo(parts, shapes, j) && sh.secDrop == SecDrop(shapes[j])
  {}

  lemma CoveredLonger(t: seq<Section>, f: Forest, length: nat, longer: nat)
    requires Covered(t, f, length) && length <= longer
    ensures Covered(t, f, longer)
  {
    hide Clean, Nests;
  }

  ghost predicate TreesCovered(t: seq<Section>, length: nat) {
    forall m :: Tree(t, m) ==> Covered(t, m, length)
  }

  lemma CoveredTree(t: seq<Section>, m: Forest, length: nat)
    requires Tree(t, m)
    ensures Covered(t, m, length) <==> TreesCovered(t, length)
  {
    hide Tree, Covered;
    if Covered(t, m, length) {
      forall g | Tree(t, g) ensures Covered(t, g, length) { OneTree(t, g, m); }
    }
  }

  lemma PartCovered(parts: seq<Part>, forests: seq<Forest>, k: nat)
    requires AllCovered(parts, forests) && k < |parts| && parts[k].sections != []
    ensures |forests| == |parts| && Covered(parts[k].sections, forests[k], parts[k].length)
  {}

  /** One part: the merged tree's spans cover again, whatever the part was folded into. */
  lemma PartCovers(
      parts: seq<Part>, shapes: seq<Shape>, sep: nat, forests: seq<Forest>, k: nat,
      open: seq<At>, t: seq<Section>, open': seq<At>, t': seq<Section>, m: Forest)
    requires k < |parts| == |shapes| == |forests| && AllTrees(parts, forests) && AllCovered(parts, forests)
    requires Placed(parts, shapes, open) && Step(parts, shapes, sep, k, open, t, open', t')
    requires |t| == SecsTo(parts, shapes, k) && Stands(t, m, WhereAll(parts, shapes, open))
    requires Covered(t, m, EndTo(parts, sep, k))
    ensures TreesCovered(t', EndTo(parts, sep, k + 1))
  {
    hide *;
    var p, f, s, sh, ids := parts[k], forests[k], shapes[k], ShiftOf(parts, shapes, sep, k),
                            WhereAll(parts, shapes, open);
    StandsParts(t, m, ids);
    StepParts(parts, shapes, sep, k, open, t, open', t');
    EndsRise(parts, shapes, sep, k);
    if p.sections == [] {
      CoveredLonger(t, m, EndTo(parts, sep, k), EndTo(parts, sep, k + 1));
      CoveredTree(t', m, EndTo(parts, sep, k + 1));
    } else {
      TreeAt(parts, forests, k);
      TreeParts(p, f);
      PartCovered(parts, forests, k);
      ShapeFits(p, k, |open|, f);
      AnyStep(t, ids, m, p, f, s, sh);
      StepCovers(t, ids, m, p, k, f, s, sh);
      CoveredTree(t', Merged(m, ids, f, s, sh), EndTo(parts, sep, k + 1));
    }
  }

  lemma {:induction false} CoveredTo(parts: seq<Part>, shapes: seq<Shape>, sep: nat, forests: seq<Forest>, j: nat)
    requires j <= |parts| == |shapes| == |forests| && PlanTo(parts, j).Ok? && Planned(parts, shapes, j)
    requires AllTrees(parts, forests) && AllCovered(parts, forests)
    ensures TreesCovered(TableTo(parts, shapes, sep, j), EndTo(parts, sep, j))
    decreases j
  {
    hide *;
    if j == 0 {
      NothingCovered(parts, shapes, sep, forests);
    } else {
      Stepped(parts, shapes, sep, j);
      CoveredTo(parts, shapes, sep, forests, j - 1);
      var open, t := Open(parts, j - 1), TableTo(parts, shapes, sep, j - 1);
      var m := FollowsAll(parts, shapes, sep, forests, j - 1);
      FollowsParts(parts, shapes, sep, forests, j - 1, open, t, m);
      StandsParts(t, m, WhereAll(parts, shapes, open));
      CoveredTree(t, m, EndTo(parts, sep, j - 1));
      PartCovers(parts, shapes, sep, forests, j - 1, open, t, Open(parts, j), TableTo(parts, shapes, sep, j), m);
    }
  }

  lemma NothingCovered(parts: seq<Part>, shapes: seq<Shape>, sep: nat, forests: seq<Forest>)
    requires |parts| == |shapes| == |forests|
    ensures TreesCovered(TableTo(parts, shapes, sep, 0), EndTo(parts, sep, 0))
  {
    assert Tree(TableTo(parts, shapes, sep, 0), []);
    CoveredTree(TableTo(parts, shapes, sep, 0), [], EndTo(parts, sep, 0));
  }

  /**
   * If in every part the sections' spans are non-empty, ascending and apart, and cover those of the sections
   * they hold, then so are and do the merged sections', the root's included, whatever was folded where and
   * joined across a separator, and whatever lacked elements or spans.
   */
  lemma SpansCover(parts: seq<Part>, shapes: seq<Shape>, sep: nat, forests: seq<Forest>)
    requires Planned(parts, shapes, |parts|) && AllTrees(parts, forests) && AllCovered(parts, forests)
    ensures |parts| == |shapes|
    ensures exists m ::
              && Tree(TableTo(parts, shapes, sep, |parts|), m)
              && (forall g :: Tree(TableTo(parts, shapes, sep, |parts|), g) ==> g == m)
              && Covered(TableTo(parts, shapes, sep, |parts|), m, EndTo(parts, sep, |parts|))
  {
    hide *;
    AllPlanned(parts, shapes, forests);
    FoldingKeepsTheDocument(parts, shapes, sep, forests);
    var t := TableTo(parts, shapes, sep, |parts|);
    var m :| Tree(t, m) && forall g :: Tree(t, g) ==> g == m;
    CoveredTo(parts, shapes, sep, forests, |parts|);
    CoveredTree(t, m, EndTo(parts, sep, |parts|));
  }

  /** Position q of the merged content lies in a part's root spans, or between two that were joined. */
  ghost predicate RootHolds(parts: seq<Part>, shapes: seq<Shape>, sep: nat, j: nat, q: int)
    requires j <= |parts| == |shapes| && PlanTo(parts, j).Ok?
    decreases j
  {
    j > 0 && (RootHolds(parts, shapes, sep, j - 1, q) || RootTakes(parts, shapes, sep, j - 1, q))
  }

  /** Position q lies in part k's root spans, or in the separator before it, across which they were joined. */
  ghost predicate RootTakes(parts: seq<Part>, shapes: seq<Shape>, sep: nat, k: nat, q: int)
    requires k < |parts| == |shapes| && PlanTo(parts, k).Ok?
  {
    var sh := ShiftOf(parts, shapes, sep, k);
    || In(q - sh.start, RootSpans(parts[k]))
    || (var was, own := Spans(TableTo(parts, shapes, sep, k)[0]), RootSpans(parts[k]);
        && k > 0 && was != [] && own != [] && own[0].offset == 0
        && End(was[|was| - 1]) == EndTo(parts, sep, k) <= q < sh.start)
  }

  /**
   * The merged root's spans cover exactly what the parts' root spans do, and the separators they were joined
   * across.
   */
  lemma {:induction false} RootCoversExactly(parts: seq<Part>, shapes: seq<Shape>, sep: nat, j: nat, q: int)
    requires j <= |parts| == |shapes| && PlanTo(parts, j).Ok? && Planned(parts, shapes, j)
    requires forall k :: 0 <= k < |parts| ==> Clean(RootSpans(parts[k]))
    ensures In(q, Spans(TableTo(parts, shapes, sep, j)[0])) <==> RootHolds(parts, shapes, sep, j, q)
    decreases j
  {
    hide *;
    if j == 0 {
      NoRootSpans(parts, shapes, sep, q);
    } else {
      Stepped(parts, shapes, sep, j);
      RootCoversExactly(parts, shapes, sep, j - 1, q);
      RootStep(parts, shapes, sep, j);
      RootHoldsIs(parts, shapes, sep, j, q);
      RootTakesIs(parts, shapes, sep, j - 1, q);
      var sh := ShiftOf(parts, shapes, sep, j - 1);
      EndsRise(parts, shapes, sep, j - 1);
      AppendIn(sh, Spans(TableTo(parts, shapes, sep, j - 1)[0]), RootSpans(parts[j - 1]), q);
    }
  }

  lemma NoRootSpans(parts: seq<Part>, shapes: seq<Shape>, sep: nat, q: int)
    requires |parts| == |shapes|
    ensures !In(q, Spans(TableTo(parts, shapes, sep, 0)[0])) && !RootHolds(parts, shapes, sep, 0, q)
  {}

  lemma RootHoldsIs(parts: seq<Part>, shapes: seq<Shape>, sep: nat, j: nat, q: int)
    requires 0 < j <= |parts| == |shapes| && PlanTo(parts, j).Ok? && PlanTo(parts, j - 1).Ok?
    ensures RootHolds(parts, shapes, sep, j, q)
      <==> RootHolds(parts, shapes, sep, j - 1, q) || RootTakes(parts, shapes, sep, j - 1, q)
  {
    hide TableTo, PlanTo, RootTakes;
  }

  lemma RootTakesIs(parts: seq<Part>, shapes: seq<Shape>, sep: nat, k: nat, q: int)
    requires k < |parts| == |shapes| && PlanTo(parts, k).Ok?
    ensures var sh := ShiftOf(parts, shapes, sep, k);
            RootTakes(parts, shapes, sep, k, q) <==>
              || In(q - sh.start, RootSpans(parts[k]))
              || (EndTo(parts, sep, k) <= q < sh.start
                  && Joins(sh, Spans(TableTo(parts, shapes, sep, k)[0]), RootSpans(parts[k])))
  {
    hide PlanTo, TableTo, In, RootSpans, BasesTo, SecsTo, CharTo;
  }

  /** The merged root's spans, with part j - 1's. */
  lemma RootStep(parts: seq<Part>, shapes: seq<Shape>, sep: nat, j: nat)
    requires 0 < j <= |parts| == |shapes| && PlanTo(parts, j).Ok? && PlanTo(parts, j - 1).Ok?
    requires Placed(parts, shapes, Open(parts, j - 1)) && Clean(RootSpans(parts[j - 1]))
    requires Step(parts, shapes, sep, j - 1, Open(parts, j - 1), TableTo(parts, shapes, sep, j - 1),
                  Open(parts, j), TableTo(parts, shapes, sep, j))
    ensures Spans(TableTo(parts, shapes, sep, j)[0])
      == Append(ShiftOf(parts, shapes, sep, j - 1), Spans(TableTo(parts, shapes, sep, j - 1)[0]),
                RootSpans(parts[j - 1]))
  {
    hide *;
    var t, p, s, sh := TableTo(parts, shapes, sep, j - 1), parts[j - 1], shapes[j - 1],
                       ShiftOf(parts, shapes, sep, j - 1);
    var open := WhereAll(parts, shapes, Open(parts, j - 1));
    EndsRise(parts, shapes, sep, j - 1);
    StepAdds(parts, shapes, sep, j - 1, Open(parts, j - 1), t, Open(parts, j), TableTo(parts, shapes, sep, j));
    if p.sections != [] {
      AddedRoot(t, open, p, s, sh);
      RootSpansAdded(t[0], p, s, |open|, sh);
    } else {
      NoSpansAdded(p, sh, Spans(t[0]));
    }
  }

  lemma StepAdds(
      parts: seq<Part>, shapes: seq<Shape>, sep: nat, k: nat,
      open: seq<At>, t: seq<Section>, open': seq<At>, t': seq<Section>)
    requires k < |parts| == |shapes| && Placed(parts, shapes, open) && Step(parts, shapes, sep, k, open, t, open', t')
    ensures parts[k].sections == [] ==> t' == t
    ensures parts[k].sections != [] ==>
              t' == AddPart(t, WhereAll(parts, shapes, open), parts[k], shapes[k], ShiftOf(parts, shapes, sep, k))
  {}

  lemma NoSpansAdded(p: Part, sh: Shift, spans: seq<Span>)
    requires p.sections == [] && sh.prevEnd <= sh.start
    ensures Append(sh, spans, RootSpans(p)) == spans
  {}
}
