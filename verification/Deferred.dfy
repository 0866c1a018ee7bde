/**
 * What the merge writes, from everything the plan decided (continue.go:565-649, sections.go:330-443),
 * against the table grown part by part: the continuations a section collects are written when the
 * section is, long after later parts were planned, and come to the same section.
 */
module Deferred {
  import opened Lists
  import opened Sections
  import opened Forest
  import opened Lead
  import opened Renumber
  import opened Fold
  import opened Incremental
  import opened LeftOpen
  import opened Document

  /** Content of part k that continues a section open before it; no elements where only spans go. */
  datatype Continuation = Continuation(k: nat, elements: Option<seq<Elem>>, spans: seq<Span>)

  /** What part k gives the open section at depth d, if anything. */
  function Gives(p: Part, k: nat, s: Shape, depth: nat, d: nat): Option<Continuation>
    requires 0 < d <= depth
  {
    var elems := ShareElems(p, s, depth, d);
    var spans := ShareSpans(p, s, d);
    match s
    case Apart => None
    case Chain(n, content) =>
      if !content && d > n then None
      else
        var takes := d < n || d == (if content then depth else n);
        Some(Continuation(k, if takes then Some(elems) else None, spans))
    case _ => Some(Continuation(k, if d == depth then Some(elems) else None, spans))
  }

  function Contents(c: Continuation): seq<Elem> { if c.elements.Some? then c.elements.value else [] }

  type Folds = map<At, seq<Continuation>>

  function Collected(folds: Folds, at: At): seq<Continuation> { if at in folds then folds[at] else [] }

  function Collect(folds: Folds, at: At, c: Option<Continuation>): Folds {
    if c.None? then folds else folds[at := Collected(folds, at) + [c.value]]
  }

  /** folds with what part p gives the first n of the open sections. */
  function FoldIn(folds: Folds, open: seq<At>, p: Part, k: nat, s: Shape, n: nat): Folds
    requires n <= |open|
    decreases n
  {
    if n == 0 then folds
    else Collect(FoldIn(folds, open, p, k, s, n - 1), open[n - 1], Gives(p, k, s, |open|, n))
  }

  /** The continuations with those that part k makes. */
  function FoldsNext(before: Folds, parts: seq<Part>, shapes: seq<Shape>, k: nat): Folds
    requires k < |parts| == |shapes| && PlanTo(parts, k).Ok?
  {
    if parts[k].sections == [] then before
    else FoldIn(before, Open(parts, k), parts[k], k, shapes[k], |Open(parts, k)|)
  }

  /** The continuations the first j parts make, by the section they continue. */
  function FoldsTo(parts: seq<Part>, shapes: seq<Shape>, j: nat): Folds
    requires j <= |parts| == |shapes| && PlanTo(parts, j).Ok?
    decreases j
  {
    if j == 0 then map[] else FoldsNext(FoldsTo(parts, shapes, j - 1), parts, shapes, j - 1)
  }

  /** Every part's shifts, once all are planned. */
  function Shifts(parts: seq<Part>, shapes: seq<Shape>, sep: nat): (r: seq<Shift>)
    requires |parts| == |shapes|
    ensures |r| == |parts| && Ordered(r)
  {
    seq(|parts|, k requires 0 <= k < |parts| => ShiftOf(parts, shapes, sep, k))
  }

  /** Parts that follow one another in the content. */
  ghost predicate Ordered(shs: seq<Shift>) {
    forall k :: 0 <= k < |shs| ==> shs[k].prevEnd <= shs[k].start
  }

  /** A separator lies between any two parts. */
  ghost predicate Spaced(shs: seq<Shift>) {
    forall k :: 0 <= k < |shs| && shs[k].k > 0 ==> shs[k].prevEnd < shs[k].start
  }

  /** The continuations are those parts'. */
  ghost predicate Apt(shs: seq<Shift>, cs: seq<Continuation>) {
    Ordered(shs) && forall n :: 0 <= n < |cs| ==> cs[n].k < |shs|
  }

  /** The first n element lists one after another, each renumbered by its own part. */
  function ElemsOf(shs: seq<Shift>, cs: seq<Continuation>, n: nat): seq<Elem>
    requires Apt(shs, cs) && n <= |cs|
    decreases n
  {
    if n == 0 then [] else ElemsOf(shs, cs, n - 1) + RenElems(shs[cs[n - 1].k], Contents(cs[n - 1]))
  }

  /** The first n span lists one after another, each shifted by its own part. */
  function SpansOf(shs: seq<Shift>, cs: seq<Continuation>, n: nat): seq<Span>
    requires Apt(shs, cs) && n <= |cs|
    decreases n
  {
    if n == 0 then [] else Append(shs[cs[n - 1].k], SpansOf(shs, cs, n - 1), cs[n - 1].spans)
  }

  /** Section i of part k as it is written, with the continuations it collected. */
  function Written(shs: seq<Shift>, sec: Section, k: nat, cs: seq<Continuation>): Section
    requires k < |shs| && Apt(shs, cs)
  {
    if cs == [] then RenSection(shs[k], sec)
    else
      var all := [Continuation(k, sec.elements, Spans(sec))] + cs;
      Section(if sec.elements.Some? then Some(ElemsOf(shs, all, |all|)) else None,
              if sec.spans.Some? then Some(SpansOf(shs, all, |all|)) else None)
  }

  /** sec grown by the first n continuations one at a time. */
  function GrownBy(shs: seq<Shift>, sec: Section, cs: seq<Continuation>, n: nat): Section
    requires Apt(shs, cs) && n <= |cs|
    decreases n
  {
    if n == 0 then sec
    else
      var c := cs[n - 1];
      Grow(GrownBy(shs, sec, cs, n - 1), RenElems(shs[c.k], Contents(c)), shs[c.k], c.spans)
  }

  /** A part's own spans never touch the end of the part before it: a separator lies between. */
  lemma {:induction false} AppendOwn(sh: Shift, spans: seq<Span>)
    requires sh.prevEnd <= sh.start && (sh.k > 0 ==> sh.prevEnd < sh.start)
    ensures Append(sh, [], spans) == Shifted(sh, spans)
    decreases |spans|
  {
    if spans != [] { AppendOwn(sh, spans[..|spans| - 1]); }
  }

  /** Lists written in a row, the section's own first, are the section grown by the others. */
  lemma {:induction false} RowGrows(
      shs: seq<Shift>, sec: Section, own: Continuation, cs: seq<Continuation>, all: seq<Continuation>, n: nat)
    requires own.k < |shs| && Apt(shs, cs) && Apt(shs, all) && all == [own] + cs && n <= |cs|
    requires shs[own.k].k > 0 ==> shs[own.k].prevEnd < shs[own.k].start
    requires own.elements == sec.elements && own.spans == Spans(sec)
    ensures GrownBy(shs, RenSection(shs[own.k], sec), cs, n)
         == Section(if sec.elements.Some? then Some(ElemsOf(shs, all, n + 1)) else None,
                    if sec.spans.Some? then Some(SpansOf(shs, all, n + 1)) else None)
    decreases n
  {
    assert all[0] == own;
    if n == 0 {
      AppendOwn(shs[own.k], own.spans);
      assert [] + RenElems(shs[own.k], Contents(own)) == RenElems(shs[own.k], Contents(own));
    } else {
      RowGrows(shs, sec, own, cs, all, n - 1);
      assert all[n] == cs[n - 1];
    }
  }

  lemma WrittenGrown(shs: seq<Shift>, sec: Section, k: nat, cs: seq<Continuation>)
    requires k < |shs| && Apt(shs, cs) && (shs[k].k > 0 ==> shs[k].prevEnd < shs[k].start)
    ensures Written(shs, sec, k, cs) == GrownBy(shs, RenSection(shs[k], sec), cs, |cs|)
  {
    hide *;
    var own := Continuation(k, sec.elements, Spans(sec));
    WrittenIs(shs, sec, k, cs);
    if cs == [] { GrownNone(shs, RenSection(shs[k], sec), cs); } else { RowGrows(shs, sec, own, cs, [own] + cs, |cs|); }
  }

  lemma GrownNone(shs: seq<Shift>, sec: Section, cs: seq<Continuation>)
    requires Apt(shs, cs)
    ensures GrownBy(shs, sec, cs, 0) == sec
  {}

  lemma WrittenIs(shs: seq<Shift>, sec: Section, k: nat, cs: seq<Continuation>)
    requires k < |shs| && Apt(shs, cs)
    ensures Apt(shs, [Continuation(k, sec.elements, Spans(sec))] + cs)
    ensures var all := [Continuation(k, sec.elements, Spans(sec))] + cs;
            Written(shs, sec, k, cs) ==
              if cs == [] then RenSection(shs[k], sec)
              else Section(if sec.elements.Some? then Some(ElemsOf(shs, all, |cs| + 1)) else None,
                           if sec.spans.Some? then Some(SpansOf(shs, all, |cs| + 1)) else None)
  {
    hide ElemsOf, SpansOf, RenSection, Spans;
  }

  /** A section the merge keeps: past those folded away, in the part's array. */
  predicate Keeps(parts: seq<Part>, shapes: seq<Shape>, at: At)
    requires |parts| == |shapes|
  {
    at.k < |parts| && SecDrop(shapes[at.k]) < at.i < |parts[at.k].sections|
  }

  /** Different sections that earlier parts keep. */
  ghost predicate KeptOnce(parts: seq<Part>, shapes: seq<Shape>, ats: seq<At>, j: nat)
    requires |parts| == |shapes|
  {
    && (forall d :: 0 <= d < |ats| ==> ats[d].k < j && Keeps(parts, shapes, ats[d]))
    && (forall d, e :: 0 <= d < e < |ats| ==> ats[d] != ats[e])
  }

  lemma {:induction false} WalkOnce(secs: seq<Section>, elems: seq<Elem>, path: seq<nat>, steps: nat)
    requires Distinct(path) && forall x :: x in path ==> 1 <= x < |secs|
    ensures Distinct(Walk(secs, elems, path, steps))
    decreases steps
  {
    if steps > 0 && elems != [] && elems[|elems| - 1].Sec? {
      var i := elems[|elems| - 1].i;
      if 1 <= i < |secs| && i !in path && Extensible(secs[i]) {
        WalkOnce(secs, Elems(secs[i]), path + [i], steps - 1);
      }
    }
  }

  lemma {:induction false} ReopenOnce(
      parts: seq<Part>, shapes: seq<Shape>, k: nat, open: seq<At>, into: seq<nat>, path: seq<nat>)
    requires k < |parts| == |shapes| && |into| == SecDrop(shapes[k])
    requires forall j :: 0 <= j < |into| ==> into[j] <= |open|
    requires Distinct(path) && forall x :: x in path ==> 1 <= x < |parts[k].sections|
    requires KeptOnce(parts, shapes, open, k)
    ensures KeptOnce(parts, shapes, Reopen(k, open, into, path), k + 1)
    ensures forall at :: at in Reopen(k, open, into, path) ==> at.k < k || (at.k == k && at.i in path)
    decreases |path|
  {
    if path != [] {
      var n := |path| - 1;
      var front := path[..n];
      assert forall j :: 0 <= j < |front| ==> front[j] == path[j] && path[j] in path;
      assert path[n] in path && path[n] !in front;
      ReopenOnce(parts, shapes, k, open, into, front);
    }
  }

  /** The sections left open are different, and none of them was folded away itself. */
  lemma {:induction false} OpenOnce(parts: seq<Part>, shapes: seq<Shape>, j: nat)
    requires Planned(parts, shapes, j)
    ensures KeptOnce(parts, shapes, Open(parts, j), j)
    decreases j
  {
    if j > 0 {
      PlannedBefore(parts, shapes, j);
      OpenOnce(parts, shapes, j - 1);
      var p, before := parts[j - 1], Open(parts, j - 1);
      if p.sections != [] {
        WalkOnce(p.sections, RootElems(p), [], |p.sections|);
        ReopenOnce(parts, shapes, j - 1, before, Into(shapes[j - 1], |before|), OpenPath(p));
      }
    }
  }

  lemma {:induction false} SecsRise(parts: seq<Part>, shapes: seq<Shape>, a: nat, b: nat)
    requires a <= b <= |parts| == |shapes|
    ensures SecsTo(parts, shapes, a) <= SecsTo(parts, shapes, b)
    decreases b
  {
    if a < b { SecsRise(parts, shapes, a, b - 1); }
  }

  lemma WhereWithin(parts: seq<Part>, shapes: seq<Shape>, at: At)
    requires |parts| == |shapes| && Keeps(parts, shapes, at)
    ensures SecsTo(parts, shapes, at.k) <= Where(parts, shapes, at) < SecsTo(parts, shapes, at.k + 1)
  {}

  /** Different sections kept land at different places. */
  lemma WhereOnce(parts: seq<Part>, shapes: seq<Shape>, a: At, b: At)
    requires |parts| == |shapes| && Keeps(parts, shapes, a) && Keeps(parts, shapes, b)
    requires Where(parts, shapes, a) == Where(parts, shapes, b)
    ensures a == b
  {
    WhereWithin(parts, shapes, a);
    WhereWithin(parts, shapes, b);
    if a.k < b.k {
      SecsRise(parts, shapes, a.k + 1, b.k);
    } else if b.k < a.k {
      SecsRise(parts, shapes, b.k + 1, a.k);
    }
  }

  ghost predicate AllApt(shs: seq<Shift>, folds: Folds) {
    Ordered(shs) && forall at :: at in folds ==> Apt(shs, folds[at])
  }

  /** The continuations are those of some of the first k parts, and so are the sections they continue. */
  ghost predicate FromFirst(folds: Folds, k: nat) {
    forall at :: at in folds ==> at.k < k && forall n :: 0 <= n < |folds[at]| ==> folds[at][n].k < k
  }

  lemma {:induction false} FoldInFirst(folds: Folds, open: seq<At>, p: Part, k: nat, s: Shape, n: nat)
    requires n <= |open| && Earlier(open, k) && FromFirst(folds, k + 1)
    ensures FromFirst(FoldIn(folds, open, p, k, s, n), k + 1)
    decreases n
  {
    if n > 0 { FoldInFirst(folds, open, p, k, s, n - 1); }
  }

  lemma FirstLater(folds: Folds, k: nat)
    requires FromFirst(folds, k)
    ensures FromFirst(folds, k + 1)
  {}

  lemma {:induction false} FoldsFirst(parts: seq<Part>, shapes: seq<Shape>, j: nat)
    requires j <= |parts| == |shapes| && PlanTo(parts, j).Ok?
    ensures FromFirst(FoldsTo(parts, shapes, j), j)
    decreases j
  {
    hide ShapeOf, NextOpen, FoldIn, OpenPath;
    if j > 0 {
      FoldsFirst(parts, shapes, j - 1);
      OpenEarlier(parts, j - 1);
      FirstLater(FoldsTo(parts, shapes, j - 1), j - 1);
      FoldInFirst(FoldsTo(parts, shapes, j - 1), Open(parts, j - 1), parts[j - 1], j - 1, shapes[j - 1],
                  |Open(parts, j - 1)|);
    }
  }

  function Given(c: Option<Continuation>): seq<Continuation> { if c.None? then [] else [c.value] }

  lemma CollectAt(folds: Folds, at: At, c: Option<Continuation>, b: At)
    ensures Collected(Collect(folds, at, c), b) == Collected(folds, b) + if b == at then Given(c) else []
  {
    assert Collected(folds, b) + [] == Collected(folds, b);
  }

  lemma FoldInStep(folds: Folds, open: seq<At>, p: Part, k: nat, s: Shape, n: nat)
    requires n <= |open|
    ensures n == 0 ==> FoldIn(folds, open, p, k, s, n) == folds
    ensures n > 0 ==>
              FoldIn(folds, open, p, k, s, n)
                == Collect(FoldIn(folds, open, p, k, s, n - 1), open[n - 1], Gives(p, k, s, |open|, n))
  {
    hide Collect, Gives;
  }

  /** Folding in gives each of the open sections what the part gives it, and others nothing. */
  lemma {:induction false} FoldInAt(folds: Folds, open: seq<At>, p: Part, k: nat, s: Shape, n: nat, d: nat)
    requires n <= |open| && d < |open| && forall i, j :: 0 <= i < j < |open| ==> open[i] != open[j]
    ensures Collected(FoldIn(folds, open, p, k, s, n), open[d])
         == Collected(folds, open[d]) + if d < n then Given(Gives(p, k, s, |open|, d + 1)) else []
    decreases n
  {
    hide *;
    FoldInStep(folds, open, p, k, s, n);
    if n > 0 {
      FoldInAt(folds, open, p, k, s, n - 1, d);
      CollectAt(FoldIn(folds, open, p, k, s, n - 1), open[n - 1], Gives(p, k, s, |open|, n), open[d]);
    }
  }

  lemma {:induction false} FoldInApart(folds: Folds, open: seq<At>, p: Part, k: nat, s: Shape, n: nat, at: At)
    requires n <= |open| && at !in open
    ensures Collected(FoldIn(folds, open, p, k, s, n), at) == Collected(folds, at)
    decreases n
  {
    if n > 0 { FoldInApart(folds, open, p, k, s, n - 1, at); }
  }

  /** Only the lists counted matter. */
  lemma {:induction false} SameLists(shs: seq<Shift>, sec: Section, cs: seq<Continuation>, ds: seq<Continuation>,
      n: nat)
    requires Apt(shs, cs) && Apt(shs, ds) && n <= |cs| && n <= |ds| && forall i :: 0 <= i < n ==> cs[i] == ds[i]
    ensures ElemsOf(shs, cs, n) == ElemsOf(shs, ds, n) && SpansOf(shs, cs, n) == SpansOf(shs, ds, n)
    ensures GrownBy(shs, sec, cs, n) == GrownBy(shs, sec, ds, n)
    decreases n
  {
    if n > 0 { SameLists(shs, sec, cs, ds, n - 1); }
  }

  /** What a section is given is what it takes of the part. */
  lemma GivesShare(p: Part, k: nat, s: Shape, depth: nat, d: nat)
    requires 0 < d <= depth
    ensures var c := Gives(p, k, s, depth, d);
            if c.Some? then
              c.value.k == k && Contents(c.value) == ShareElems(p, s, depth, d) && c.value.spans == ShareSpans(p, s, d)
            else ShareElems(p, s, depth, d) == [] && ShareSpans(p, s, d) == []
  {}

  lemma GrownMore(shs: seq<Shift>, sec: Section, cs: seq<Continuation>, c: Continuation)
    requires Apt(shs, cs) && c.k < |shs|
    ensures Apt(shs, cs + [c])
    ensures GrownBy(shs, sec, cs + [c], |cs + [c]|)
         == Grow(GrownBy(shs, sec, cs, |cs|), RenElems(shs[c.k], Contents(c)), shs[c.k], c.spans)
  {
    var all := cs + [c];
    assert all[|cs|] == c;
    SameLists(shs, sec, cs, all, |cs|);
    hide Grow, RenElems, Contents;
  }

  lemma GrowNone(sec: Section, sh: Shift)
    requires sh.prevEnd <= sh.start
    ensures Grow(sec, RenElems(sh, []), sh, []) == sec
  {
    assert sec.elements.Some? ==> sec.elements.value + [] == sec.elements.value;
  }

  lemma OrderedAt(shs: seq<Shift>, k: nat)
    requires Ordered(shs) && k < |shs|
    ensures shs[k].prevEnd <= shs[k].start
  {}

  lemma GivenIs(cs: seq<Continuation>, c: Option<Continuation>)
    ensures cs + Given(c) == if c.Some? then cs + [c.value] else cs
  {}

  lemma AptOrdered(shs: seq<Shift>, cs: seq<Continuation>)
    requires Apt(shs, cs)
    ensures Ordered(shs)
  {}

  /** What a section is given is what it grows by. */
  lemma GivesGrow(shs: seq<Shift>, sec: Section, p: Part, k: nat, s: Shape, depth: nat, d: nat, cs: seq<Continuation>)
    requires 0 < d <= depth && Apt(shs, cs) && k < |shs|
    ensures Apt(shs, cs + Given(Gives(p, k, s, depth, d)))
    ensures GrownBy(shs, sec, cs + Given(Gives(p, k, s, depth, d)), |cs + Given(Gives(p, k, s, depth, d))|)
         == Grow(GrownBy(shs, sec, cs, |cs|), RenElems(shs[k], ShareElems(p, s, depth, d)), shs[k], ShareSpans(p, s, d))
  {
    hide *;
    AptOrdered(shs, cs);
    OrderedAt(shs, k);
    GivesShare(p, k, s, depth, d);
    var c := Gives(p, k, s, depth, d);
    GivenIs(cs, c);
    if c.Some? { GrownMore(shs, sec, cs, c.value); } else { GrowNone(GrownBy(shs, sec, cs, |cs|), shs[k]); }
  }

  lemma {:induction false} TableLength(parts: seq<Part>, shapes: seq<Shape>, sep: nat, j: nat)
    requires j <= |parts| == |shapes| && PlanTo(parts, j).Ok? && Planned(parts, shapes, j)
    ensures |TableTo(parts, shapes, sep, j)| == SecsTo(parts, shapes, j)
    decreases j
  {
    if j > 0 {
      PlannedBefore(parts, shapes, j);
      TableLength(parts, shapes, sep, j - 1);
    }
  }

  /** The section a kept section becomes in the table of the first j parts. */
  ghost predicate Settled(parts: seq<Part>, shapes: seq<Shape>, shs: seq<Shift>, t: seq<Section>, folds: Folds, at: At)
    requires |parts| == |shapes| == |shs| && Keeps(parts, shapes, at) && AllApt(shs, folds)
  {
    var x := Where(parts, shapes, at);
    var cs := Collected(folds, at);
    x < |t| && t[x] == GrownBy(shs, RenSection(shs[at.k], parts[at.k].sections[at.i]), cs, |cs|)
  }

  lemma FindsOpen(parts: seq<Part>, shapes: seq<Shape>, open: seq<At>, j: nat, at: At)
    requires |parts| == |shapes| && KeptOnce(parts, shapes, open, j) && Placed(parts, shapes, open)
    requires Keeps(parts, shapes, at)
    ensures var d := Find(WhereAll(parts, shapes, open), Where(parts, shapes, at));
            if d < |open| then open[d] == at else at !in open
  {
    var ids, x := WhereAll(parts, shapes, open), Where(parts, shapes, at);
    var d := Find(ids, x);
    if d < |open| {
      WhereOnce(parts, shapes, open[d], at);
    }
  }

  /** A part's continuations, given as they come, leave every section it does not keep itself settled. */
  lemma OldSettled(
      parts: seq<Part>, shapes: seq<Shape>, shs: seq<Shift>, t: seq<Section>, folds: Folds, open: seq<At>,
      k: nat, at: At)
    requires k < |parts| == |shapes| == |shs| && Keeps(parts, shapes, at)
    requires AllApt(shs, folds) && parts[k].sections != []
    requires KeptOnce(parts, shapes, open, k) && Placed(parts, shapes, open)
    requires Settled(parts, shapes, shs, t, folds, at)
    ensures var p, s := parts[k], shapes[k];
            var after := FoldIn(folds, open, p, k, s, |open|);
            && Apt(shs, Collected(after, at))
            && (AllApt(shs, after) ==>
                  Settled(parts, shapes, shs, AddPart(t, WhereAll(parts, shapes, open), p, s, shs[k]), after, at))
  {
    var p, s := parts[k], shapes[k];
    var ids, x := WhereAll(parts, shapes, open), Where(parts, shapes, at);
    var d := Find(ids, x);
    FindsOpen(parts, shapes, open, k, at);
    SecsRise(parts, shapes, 0, at.k);
    assert AddPart(t, ids, p, s, shs[k])[x] == GrowAt(t, ids, p, s, shs[k], x);
    if d < |open| {
      FoldInAt(folds, open, p, k, s, |open|, d);
      GivesGrow(shs, RenSection(shs[at.k], parts[at.k].sections[at.i]), p, k, s, |open|, d + 1, Collected(folds, at));
    } else {
      FoldInApart(folds, open, p, k, s, |open|, at);
    }
  }

  lemma FirstApt(parts: seq<Part>, shapes: seq<Shape>, sep: nat, j: nat)
    requires j <= |parts| == |shapes| && PlanTo(parts, j).Ok?
    ensures AllApt(Shifts(parts, shapes, sep), FoldsTo(parts, shapes, j))
  {
    FoldsFirst(parts, shapes, j);
  }

  /** A part's own sections are settled as it is added: nothing continues them yet. */
  lemma NewSettled(
      parts: seq<Part>, shapes: seq<Shape>, shs: seq<Shift>, t: seq<Section>, folds: Folds, open: seq<At>,
      k: nat, at: At)
    requires k < |parts| == |shapes| == |shs| && Keeps(parts, shapes, at) && at.k == k
    requires |t| == SecsTo(parts, shapes, k) && shs[k].secBase == |t| && shs[k].secDrop == SecDrop(shapes[k])
    requires Ordered(shs) && FromFirst(folds, k) && Earlier(open, k) && Placed(parts, shapes, open)
    requires AllApt(shs, FoldIn(folds, open, parts[k], k, shapes[k], |open|))
    ensures Settled(parts, shapes, shs, AddPart(t, WhereAll(parts, shapes, open), parts[k], shapes[k], shs[k]),
                    FoldIn(folds, open, parts[k], k, shapes[k], |open|), at)
  {
    AddedNew(t, WhereAll(parts, shapes, open), parts[k], shapes[k], shs[k], at.i);
    FoldInApart(folds, open, parts[k], k, shapes[k], |open|, at);
  }

  /** The table after one part more. */
  lemma NextTable(parts: seq<Part>, shapes: seq<Shape>, sep: nat, j: nat)
    requires 0 < j <= |parts| == |shapes| && PlanTo(parts, j).Ok? && PlanTo(parts, j - 1).Ok?
    requires Placed(parts, shapes, Open(parts, j - 1))
    ensures TableTo(parts, shapes, sep, j)
         == if parts[j - 1].sections == [] then TableTo(parts, shapes, sep, j - 1)
            else AddPart(TableTo(parts, shapes, sep, j - 1), WhereAll(parts, shapes, Open(parts, j - 1)), parts[j - 1],
                         shapes[j - 1], ShiftOf(parts, shapes, sep, j - 1))
  {
    hide ShapeOf, NextOpen, AddPart, OpenPath, ShiftOf, WhereAll, Where;
  }

  /** The continuations after one part more. */
  lemma NextFolds(parts: seq<Part>, shapes: seq<Shape>, j: nat)
    requires 0 < j <= |parts| == |shapes| && PlanTo(parts, j).Ok? && PlanTo(parts, j - 1).Ok?
    ensures FoldsTo(parts, shapes, j)
         == if parts[j - 1].sections == [] then FoldsTo(parts, shapes, j - 1)
            else FoldIn(FoldsTo(parts, shapes, j - 1), Open(parts, j - 1), parts[j - 1], j - 1, shapes[j - 1],
                        |Open(parts, j - 1)|)
  {
    hide ShapeOf, NextOpen, FoldIn, OpenPath;
  }

  lemma OpenPlaced(parts: seq<Part>, shapes: seq<Shape>, j: nat)
    requires j <= |parts| == |shapes| && PlanTo(parts, j).Ok?
    ensures Placed(parts, shapes, Open(parts, j)) && Earlier(Open(parts, j), j)
  {
    OpenEarlier(parts, j);
    hide PlanTo;
  }

  lemma KeepsSome(parts: seq<Part>, shapes: seq<Shape>, at: At)
    requires |parts| == |shapes| && Keeps(parts, shapes, at)
    ensures parts[at.k].sections != []
  {}

  lemma ShiftAt(parts: seq<Part>, shapes: seq<Shape>, sep: nat, k: nat)
    requires k < |parts| == |shapes|
    ensures Ordered(Shifts(parts, shapes, sep))
    ensures Shifts(parts, shapes, sep)[k].prevEnd <= Shifts(parts, shapes, sep)[k].start
    ensures Shifts(parts, shapes, sep)[k] == ShiftOf(parts, shapes, sep, k)
    ensures Shifts(parts, shapes, sep)[k].secBase == SecsTo(parts, shapes, k)
    ensures Shifts(parts, shapes, sep)[k].secDrop == SecDrop(shapes[k])
  {}

  /** However late its continuations come, a kept section is in the table as they make it. */
  lemma {:induction false} SettledTo(parts: seq<Part>, shapes: seq<Shape>, sep: nat, j: nat, at: At)
    requires j <= |parts| == |shapes| && PlanTo(parts, j).Ok? && Planned(parts, shapes, j)
    requires Keeps(parts, shapes, at) && at.k < j
    ensures AllApt(Shifts(parts, shapes, sep), FoldsTo(parts, shapes, j))
    ensures Settled(parts, shapes, Shifts(parts, shapes, sep), TableTo(parts, shapes, sep, j),
                    FoldsTo(parts, shapes, j), at)
    decreases j
  {
    hide *;
    var shs := Shifts(parts, shapes, sep);
    KeepsSome(parts, shapes, at);
    ShiftAt(parts, shapes, sep, j - 1);
    FirstApt(parts, shapes, sep, j);
    PlannedBefore(parts, shapes, j);
    OpenPlaced(parts, shapes, j - 1);
    NextTable(parts, shapes, sep, j);
    NextFolds(parts, shapes, j);
    var t, folds, open := TableTo(parts, shapes, sep, j - 1), FoldsTo(parts, shapes, j - 1), Open(parts, j - 1);
    if at.k == j - 1 {
      TableLength(parts, shapes, sep, j - 1);
      FoldsFirst(parts, shapes, j - 1);
      NewSettled(parts, shapes, shs, t, folds, open, j - 1, at);
    } else {
      SettledTo(parts, shapes, sep, j - 1, at);
      OpenOnce(parts, shapes, j - 1);
      if parts[j - 1].sections != [] {
        OldSettled(parts, shapes, shs, t, folds, open, j - 1, at);
      }
    }
  }

  /** What the root of part k gives the merged root: its elements, less what moves, and its spans. */
  function RootList(p: Part, k: nat, s: Shape): Continuation
    requires p.sections != []
  {
    var elems := RootElems(p);
    Continuation(k, if p.sections[0].elements.None? || s.Moved? then None
                    else Some(elems[Min(RootDrop(s), |elems|)..]), RootSpans(p))
  }

  function RootLists(parts: seq<Part>, shapes: seq<Shape>, j: nat): (r: seq<Continuation>)
    requires j <= |parts| == |shapes|
    ensures forall n :: 0 <= n < |r| ==> r[n].k < j
    decreases j
  {
    if j == 0 then []
    else
      var before := RootLists(parts, shapes, j - 1);
      if parts[j - 1].sections == [] then before else before + [RootList(parts[j - 1], j - 1, shapes[j - 1])]
  }

  /** Whether any of the first j parts' roots has elements, or spans. */
  predicate AnyElements(parts: seq<Part>, j: nat)
    requires j <= |parts|
    decreases j
  {
    j > 0 && (AnyElements(parts, j - 1)
              || (parts[j - 1].sections != [] && parts[j - 1].sections[0].elements.Some?))
  }

  predicate AnySpans(parts: seq<Part>, j: nat)
    requires j <= |parts|
    decreases j
  {
    j > 0 && (AnySpans(parts, j - 1) || (parts[j - 1].sections != [] && parts[j - 1].sections[0].spans.Some?))
  }

  function RootOf(hasElements: bool, hasSpans: bool, elems: seq<Elem>, spans: seq<Span>): Section {
    Section(if hasElements then Some(elems) else None, if hasSpans then Some(spans) else None)
  }

  function Root(parts: seq<Part>, shapes: seq<Shape>, shs: seq<Shift>, j: nat): Section
    requires j <= |parts| == |shapes| == |shs| && Ordered(shs)
  {
    var lists := RootLists(parts, shapes, j);
    RootOf(AnyElements(parts, j), AnySpans(parts, j), ElemsOf(shs, lists, |lists|), SpansOf(shs, lists, |lists|))
  }

  /** The root keeps the elements it does not give away. */
  lemma RootShare(p: Part, k: nat, depth: nat, s: Shape)
    requires p.sections != [] && ShapeOf(p, k, depth) == Ok(s)
    ensures ShareElems(p, s, depth, 0)
         == if s.Moved? then [] else RootElems(p)[Min(RootDrop(s), |RootElems(p)|)..]
  {}

  lemma OneMore(shs: seq<Shift>, cs: seq<Continuation>, c: Continuation)
    requires Apt(shs, cs) && c.k < |shs|
    ensures Apt(shs, cs + [c])
    ensures ElemsOf(shs, cs + [c], |cs| + 1) == ElemsOf(shs, cs, |cs|) + RenElems(shs[c.k], Contents(c))
    ensures SpansOf(shs, cs + [c], |cs| + 1) == Append(shs[c.k], SpansOf(shs, cs, |cs|), c.spans)
  {
    var all := cs + [c];
    assert all[|cs|] == c;
    SameLists(shs, Section(None, None), cs, all, |cs|);
  }

  function CountElems(cs: seq<Continuation>, n: nat): nat
    requires n <= |cs|
    decreases n
  {
    if n == 0 then 0 else CountElems(cs, n - 1) + |Contents(cs[n - 1])|
  }

  function CountSpans(cs: seq<Continuation>, n: nat): nat
    requires n <= |cs|
    decreases n
  {
    if n == 0 then 0 else CountSpans(cs, n - 1) + |cs[n - 1].spans|
  }

  lemma {:induction false} AppendSize(sh: Shift, out: seq<Span>, spans: seq<Span>)
    requires sh.prevEnd <= sh.start
    ensures |Append(sh, out, spans)| <= |out| + |spans|
    decreases |spans|
  {
    if spans != [] { AppendSize(sh, out, spans[..|spans| - 1]); }
  }

  lemma {:induction false} Sizes(shs: seq<Shift>, cs: seq<Continuation>, n: nat)
    requires Apt(shs, cs) && n <= |cs|
    ensures |ElemsOf(shs, cs, n)| == CountElems(cs, n) && |SpansOf(shs, cs, n)| <= CountSpans(cs, n)
    decreases n
  {
    if n > 0 {
      Sizes(shs, cs, n - 1);
      AppendSize(shs[cs[n - 1].k], SpansOf(shs, cs, n - 1), cs[n - 1].spans);
    }
  }

  lemma NoLists(parts: seq<Part>, shapes: seq<Shape>, shs: seq<Shift>, j: nat)
    requires j <= |parts| == |shapes| == |shs| && Ordered(shs)
    ensures var cs := RootLists(parts, shapes, j);
            && (!AnyElements(parts, j) ==> ElemsOf(shs, cs, |cs|) == [])
            && (!AnySpans(parts, j) ==> SpansOf(shs, cs, |cs|) == [])
  {
    var cs := RootLists(parts, shapes, j);
    Sizes(shs, cs, |cs|);
    NoneCounted(parts, shapes, j, |cs|);
    hide *;
  }

  lemma {:induction false} NoneCounted(parts: seq<Part>, shapes: seq<Shape>, j: nat, n: nat)
    requires j <= |parts| == |shapes| && n <= |RootLists(parts, shapes, j)|
    ensures !AnyElements(parts, j) ==> CountElems(RootLists(parts, shapes, j), n) == 0
    ensures !AnySpans(parts, j) ==> CountSpans(RootLists(parts, shapes, j), n) == 0
    decreases n
  {
    hide RootLists;
    if n > 0 {
      NoneCounted(parts, shapes, j, n - 1);
      NoList(parts, shapes, j, n - 1);
    }
  }

  lemma {:induction false} NoList(parts: seq<Part>, shapes: seq<Shape>, j: nat, n: nat)
    requires j <= |parts| == |shapes| && n < |RootLists(parts, shapes, j)|
    ensures !AnyElements(parts, j) ==> Contents(RootLists(parts, shapes, j)[n]) == []
    ensures !AnySpans(parts, j) ==> RootLists(parts, shapes, j)[n].spans == []
    decreases j
  {
    if n < |RootLists(parts, shapes, j - 1)| { NoList(parts, shapes, j - 1, n); }
  }

  lemma ListsGrow(parts: seq<Part>, shapes: seq<Shape>, j: nat, depth: nat) returns (c: Continuation)
    requires 0 < j <= |parts| == |shapes|
    requires parts[j - 1].sections != [] && ShapeOf(parts[j - 1], j - 1, depth) == Ok(shapes[j - 1])
    ensures RootLists(parts, shapes, j) == RootLists(parts, shapes, j - 1) + [c] && c.k == j - 1
    ensures Contents(c) == ShareElems(parts[j - 1], shapes[j - 1], depth, 0)
    ensures c.spans == RootSpans(parts[j - 1])
  {
    RootShare(parts[j - 1], j - 1, depth, shapes[j - 1]);
    c := RootList(parts[j - 1], j - 1, shapes[j - 1]);
    hide ShapeOf, ShareElems;
  }

  lemma RootGrows(parts: seq<Part>, shapes: seq<Shape>, shs: seq<Shift>, j: nat, depth: nat)
    requires 0 < j <= |parts| == |shapes| == |shs| && Ordered(shs)
    requires parts[j - 1].sections != [] && ShapeOf(parts[j - 1], j - 1, depth) == Ok(shapes[j - 1])
    requires shs[j - 1].prevEnd <= shs[j - 1].start
    ensures Root(parts, shapes, shs, j)
         == GrowRoot(Root(parts, shapes, shs, j - 1), parts[j - 1], shapes[j - 1], depth, shs[j - 1])
  {
    hide *;
    NoLists(parts, shapes, shs, j - 1);
    var c := ListsGrow(parts, shapes, j, depth);
    var p, cs := parts[j - 1], RootLists(parts, shapes, j - 1);
    var elems := ShareElems(p, shapes[j - 1], depth, 0);
    RootIs(parts, shapes, shs, j);
    RootIs(parts, shapes, shs, j - 1);
    AnyOneMore(parts, j);
    NothingHeld(p, shapes[j - 1], depth, shs[j - 1], Root(parts, shapes, shs, j - 1));
    RootOneMore(shs, cs, c, p.sections[0], elems, RootSpans(p), AnyElements(parts, j - 1), AnySpans(parts, j - 1));
  }

  lemma RootIs(parts: seq<Part>, shapes: seq<Shape>, shs: seq<Shift>, j: nat)
    requires j <= |parts| == |shapes| == |shs| && Ordered(shs)
    ensures Apt(shs, RootLists(parts, shapes, j))
    ensures Root(parts, shapes, shs, j)
         == RootOf(AnyElements(parts, j), AnySpans(parts, j),
                   ElemsOf(shs, RootLists(parts, shapes, j), |RootLists(parts, shapes, j)|),
                   SpansOf(shs, RootLists(parts, shapes, j), |RootLists(parts, shapes, j)|))
  {
    hide RootOf, ElemsOf, SpansOf, AnyElements, AnySpans;
  }

  lemma AnyOneMore(parts: seq<Part>, j: nat)
    requires 0 < j <= |parts| && parts[j - 1].sections != []
    ensures AnyElements(parts, j) <==> AnyElements(parts, j - 1) || parts[j - 1].sections[0].elements.Some?
    ensures AnySpans(parts, j) <==> AnySpans(parts, j - 1) || parts[j - 1].sections[0].spans.Some?
  {}

  lemma NothingHeld(p: Part, s: Shape, depth: nat, sh: Shift, root: Section)
    requires p.sections != [] && sh.prevEnd <= sh.start
    ensures GrowRoot(root, p, s, depth, sh)
         == RootWith(root, p.sections[0], sh, ShareElems(p, s, depth, 0), RootSpans(p))
    ensures p.sections[0].elements.None? ==> ShareElems(p, s, depth, 0) == []
    ensures p.sections[0].spans.None? ==> RootSpans(p) == []
  {}

  lemma RootOneMore(
      shs: seq<Shift>, cs: seq<Continuation>, c: Continuation, sec: Section, elems: seq<Elem>, spans: seq<Span>,
      hadElements: bool, hadSpans: bool)
    requires Apt(shs, cs) && c.k < |shs| && Contents(c) == elems && c.spans == spans
    requires (sec.elements.None? ==> elems == []) && (sec.spans.None? ==> spans == [])
    requires (!hadElements ==> ElemsOf(shs, cs, |cs|) == []) && (!hadSpans ==> SpansOf(shs, cs, |cs|) == [])
    ensures RootOf(hadElements || sec.elements.Some?, hadSpans || sec.spans.Some?,
                   ElemsOf(shs, cs + [c], |cs| + 1), SpansOf(shs, cs + [c], |cs| + 1))
         == RootWith(RootOf(hadElements, hadSpans, ElemsOf(shs, cs, |cs|), SpansOf(shs, cs, |cs|)), sec, shs[c.k],
                     elems, spans)
  {
    OneMore(shs, cs, c);
    var es := ElemsOf(shs, cs, |cs|);
    assert es + [] == es;
  }

  lemma RootSame(parts: seq<Part>, shapes: seq<Shape>, shs: seq<Shift>, j: nat)
    requires 0 < j <= |parts| == |shapes| == |shs| && Ordered(shs) && parts[j - 1].sections == []
    ensures Root(parts, shapes, shs, j) == Root(parts, shapes, shs, j - 1)
  {
  }

  lemma {:induction false} RootSettled(parts: seq<Part>, shapes: seq<Shape>, sep: nat, j: nat)
    requires j <= |parts| == |shapes| && PlanTo(parts, j).Ok? && Planned(parts, shapes, j)
    ensures TableTo(parts, shapes, sep, j)[0] == Root(parts, shapes, Shifts(parts, shapes, sep), j)
    decreases j
  {
    hide *;
    if j == 0 {
      NoRoot(parts, shapes, sep);
    } else {
      PlannedBefore(parts, shapes, j);
      OpenPlaced(parts, shapes, j - 1);
      RootSettled(parts, shapes, sep, j - 1);
      NextTable(parts, shapes, sep, j);
      ShiftAt(parts, shapes, sep, j - 1);
      var shs, t, open := Shifts(parts, shapes, sep), TableTo(parts, shapes, sep, j - 1), Open(parts, j - 1);
      if parts[j - 1].sections != [] {
        RootGrows(parts, shapes, shs, j, |open|);
        AddedRoot(t, WhereAll(parts, shapes, open), parts[j - 1], shapes[j - 1], shs[j - 1]);
      } else {
        RootSame(parts, shapes, shs, j);
      }
    }
  }

  lemma NoRoot(parts: seq<Part>, shapes: seq<Shape>, sep: nat)
    requires |parts| == |shapes|
    ensures TableTo(parts, shapes, sep, 0)[0] == Root(parts, shapes, Shifts(parts, shapes, sep), 0)
  {}

  /** The n-th section part k keeps, as it is written. */
  function WrittenAt(parts: seq<Part>, shapes: seq<Shape>, shs: seq<Shift>, folds: Folds, k: nat, n: nat): Section
    requires k < |parts| == |shapes| == |shs| && AllApt(shs, folds) && n < Kept(parts[k], shapes[k])
  {
    var i := 1 + SecDrop(shapes[k]) + n;
    Written(shs, parts[k].sections[i], k, Collected(folds, At(k, i)))
  }

  /** The sections after the root that the first j parts keep, as they are written. */
  function KeptTo(parts: seq<Part>, shapes: seq<Shape>, shs: seq<Shift>, folds: Folds, j: nat): seq<Section>
    requires j <= |parts| == |shapes| == |shs| && AllApt(shs, folds)
    decreases j
  {
    if j == 0 then []
    else
      var p, s := parts[j - 1], shapes[j - 1];
      KeptTo(parts, shapes, shs, folds, j - 1)
      + seq(Kept(p, s), n requires 0 <= n < Kept(p, s) => WrittenAt(parts, shapes, shs, folds, j - 1, n))
  }

  /** The merged sections array, as it is written. */
  function Output(parts: seq<Part>, shapes: seq<Shape>, shs: seq<Shift>, folds: Folds): seq<Section>
    requires |parts| == |shapes| == |shs| && AllApt(shs, folds)
  {
    if forall k :: 0 <= k < |parts| ==> parts[k].sections == [] then []
    else [Root(parts, shapes, shs, |parts|)] + KeptTo(parts, shapes, shs, folds, |parts|)
  }

  ghost predicate AllSettled(parts: seq<Part>, shapes: seq<Shape>, shs: seq<Shift>, t: seq<Section>, folds: Folds)
    requires |parts| == |shapes| == |shs| && AllApt(shs, folds)
  {
    && |t| == SecsTo(parts, shapes, |parts|)
    && forall at :: Keeps(parts, shapes, at) ==> Settled(parts, shapes, shs, t, folds, at)
  }

  lemma {:induction false} KeptSettled(
      parts: seq<Part>, shapes: seq<Shape>, shs: seq<Shift>, t: seq<Section>, folds: Folds, j: nat)
    requires j <= |parts| == |shapes| == |shs| && AllApt(shs, folds) && AllSettled(parts, shapes, shs, t, folds)
    requires Spaced(shs)
    ensures 1 <= SecsTo(parts, shapes, j) <= |t|
    ensures KeptTo(parts, shapes, shs, folds, j) == t[1..SecsTo(parts, shapes, j)]
    decreases j
  {
    hide *;
    SecsRise(parts, shapes, 0, j);
    SecsRise(parts, shapes, j, |parts|);
    SecsStart(parts, shapes, j);
    SettledSize(parts, shapes, shs, t, folds);
    if j == 0 {
      KeptNone(parts, shapes, shs, folds);
    } else {
      KeptSettled(parts, shapes, shs, t, folds, j - 1);
      var base, end := SecsTo(parts, shapes, j - 1), SecsTo(parts, shapes, j);
      SecsRise(parts, shapes, j - 1, j);
      var own := KeptNext(parts, shapes, shs, folds, j);
      forall n | 0 <= n < |own| ensures base + n < |t| && own[n] == t[base + n] {
        KeptAt(parts, shapes, shs, t, folds, j - 1, n);
      }
      Slices(t, base, end, own);
    }
  }

  lemma Slices<T>(t: seq<T>, base: nat, end: nat, own: seq<T>)
    requires 1 <= base <= end <= |t| && |own| == end - base
    requires forall n :: 0 <= n < |own| ==> own[n] == t[base + n]
    ensures t[1..end] == t[1..base] + own
  {}

  lemma SecsStart(parts: seq<Part>, shapes: seq<Shape>, j: nat)
    requires j <= |parts| == |shapes|
    ensures SecsTo(parts, shapes, 0) == 1
    ensures j > 0 ==> SecsTo(parts, shapes, j) == SecsTo(parts, shapes, j - 1) + Kept(parts[j - 1], shapes[j - 1])
  {}

  lemma SettledSize(parts: seq<Part>, shapes: seq<Shape>, shs: seq<Shift>, t: seq<Section>, folds: Folds)
    requires |parts| == |shapes| == |shs| && AllApt(shs, folds) && AllSettled(parts, shapes, shs, t, folds)
    ensures |t| == SecsTo(parts, shapes, |parts|)
  {}

  lemma KeptNone(parts: seq<Part>, shapes: seq<Shape>, shs: seq<Shift>, folds: Folds)
    requires |parts| == |shapes| == |shs| && AllApt(shs, folds)
    ensures KeptTo(parts, shapes, shs, folds, 0) == []
  {}

  lemma KeptNext(parts: seq<Part>, shapes: seq<Shape>, shs: seq<Shift>, folds: Folds, j: nat)
    returns (own: seq<Section>)
    requires 0 < j <= |parts| == |shapes| == |shs| && AllApt(shs, folds)
    ensures |own| == Kept(parts[j - 1], shapes[j - 1])
    ensures forall n :: 0 <= n < |own| ==> own[n] == WrittenAt(parts, shapes, shs, folds, j - 1, n)
    ensures KeptTo(parts, shapes, shs, folds, j) == KeptTo(parts, shapes, shs, folds, j - 1) + own
  {
    own := seq(Kept(parts[j - 1], shapes[j - 1]), n requires 0 <= n < Kept(parts[j - 1], shapes[j - 1]) =>
      WrittenAt(parts, shapes, shs, folds, j - 1, n));
    hide WrittenAt, Kept;
  }

  lemma KeptAt(parts: seq<Part>, shapes: seq<Shape>, shs: seq<Shift>, t: seq<Section>, folds: Folds, k: nat, n: nat)
    requires k < |parts| == |shapes| == |shs| && AllApt(shs, folds) && n < Kept(parts[k], shapes[k])
    requires AllSettled(parts, shapes, shs, t, folds) && Spaced(shs)
    ensures SecsTo(parts, shapes, k) + n < |t|
    ensures t[SecsTo(parts, shapes, k) + n] == WrittenAt(parts, shapes, shs, folds, k, n)
  {
    var at := At(k, 1 + SecDrop(shapes[k]) + n);
    assert Settled(parts, shapes, shs, t, folds, at);
    WrittenGrown(shs, parts[k].sections[at.i], k, Collected(folds, at));
  }

  lemma EverySettled(parts: seq<Part>, shapes: seq<Shape>, sep: nat)
    requires |parts| == |shapes| && PlanTo(parts, |parts|).Ok? && Planned(parts, shapes, |parts|)
    ensures AllApt(Shifts(parts, shapes, sep), FoldsTo(parts, shapes, |parts|))
    ensures AllSettled(parts, shapes, Shifts(parts, shapes, sep), TableTo(parts, shapes, sep, |parts|),
                       FoldsTo(parts, shapes, |parts|))
  {
    var shs, folds := Shifts(parts, shapes, sep), FoldsTo(parts, shapes, |parts|);
    FirstApt(parts, shapes, sep, |parts|);
    TableLength(parts, shapes, sep, |parts|);
    forall at | Keeps(parts, shapes, at)
      ensures Settled(parts, shapes, shs, TableTo(parts, shapes, sep, |parts|), folds, at)
    {
      SettledTo(parts, shapes, sep, |parts|, at);
    }
    hide FoldsTo, TableTo, Settled, PlanTo, Shifts;
  }

  lemma ShiftsSpaced(parts: seq<Part>, shapes: seq<Shape>, sep: nat)
    requires |parts| == |shapes| && sep > 0
    ensures Spaced(Shifts(parts, shapes, sep))
  {}

  /**
   * For any parts at all: planning every part first and writing each section once, with everything
   * later parts fold into it, gives the table that grows part by part.
   */
  lemma WritingIsGrowing(parts: seq<Part>, shapes: seq<Shape>, sep: nat)
    requires |parts| == |shapes| && PlanTo(parts, |parts|).Ok? && Planned(parts, shapes, |parts|) && sep > 0
    requires exists k :: 0 <= k < |parts| && parts[k].sections != []
    ensures AllApt(Shifts(parts, shapes, sep), FoldsTo(parts, shapes, |parts|))
    ensures Output(parts, shapes, Shifts(parts, shapes, sep), FoldsTo(parts, shapes, |parts|))
         == TableTo(parts, shapes, sep, |parts|)
  {
    hide *;
    var shs, folds := Shifts(parts, shapes, sep), FoldsTo(parts, shapes, |parts|);
    var t := TableTo(parts, shapes, sep, |parts|);
    EverySettled(parts, shapes, sep);
    RootSettled(parts, shapes, sep, |parts|);
    ShiftsSpaced(parts, shapes, sep);
    KeptSettled(parts, shapes, shs, t, folds, |parts|);
    TableLength(parts, shapes, sep, |parts|);
    OutputIs(parts, shapes, shs, folds);
    FirstAndRest(t);
  }

  lemma OutputIs(parts: seq<Part>, shapes: seq<Shape>, shs: seq<Shift>, folds: Folds)
    requires |parts| == |shapes| == |shs| && AllApt(shs, folds)
    requires exists k :: 0 <= k < |parts| && parts[k].sections != []
    ensures Ordered(shs)
    ensures Output(parts, shapes, shs, folds)
             == [Root(parts, shapes, shs, |parts|)] + KeptTo(parts, shapes, shs, folds, |parts|)
  {
    hide Root, KeptTo;
  }

  lemma FirstAndRest<T>(t: seq<T>)
    requires t != []
    ensures t == [t[0]] + t[1..|t|]
  {}
}
