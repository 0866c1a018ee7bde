/**
 * Exactly which parts are merged (internal/merge/di.go:214-257, continue.go:438-451, 565-623): none is unless every
 * pointer to an item names one.
 */
module Accepting {
  import opened Sections
  import opened Forest
  import opened Lead
  import opened Renumber
  import opened Fold
  import opened Incremental
  import opened LeftOpen
  import opened Document
  import opened Deferred
  import opened Merger
  import opened Acceptance

  // Open sections carry elements and spans, so that what is folded into them is written.

  lemma {:induction false} WalkExtends(secs: seq<Section>, elems: seq<Elem>, path: seq<nat>, steps: nat)
    requires forall x :: x in path ==> 1 <= x < |secs| && Extensible(secs[x])
    ensures forall x :: x in Walk(secs, elems, path, steps) ==> 1 <= x < |secs| && Extensible(secs[x])
    decreases steps
  {
    if steps > 0 && elems != [] && elems[|elems| - 1].Sec? {
      var i := elems[|elems| - 1].i;
      if 1 <= i < |secs| && i !in path && Extensible(secs[i]) {
        WalkExtends(secs, Elems(secs[i]), path + [i], steps - 1);
      }
    }
  }

  predicate Extends(parts: seq<Part>, at: At) {
    at.k < |parts| && at.i < |parts[at.k].sections| && Extensible(parts[at.k].sections[at.i])
  }

  lemma {:induction false} ReopenExtends(parts: seq<Part>, k: nat, open: seq<At>, into: seq<nat>, path: seq<nat>)
    requires forall j :: 0 <= j < |into| ==> into[j] <= |open|
    requires forall x :: x in path ==> x >= 1 && Extends(parts, At(k, x))
    requires forall d :: 0 <= d < |open| ==> Extends(parts, open[d])
    ensures var r := Reopen(k, open, into, path); forall d :: 0 <= d < |r| ==> Extends(parts, r[d])
    decreases |path|
  {
    if path != [] {
      var n := |path| - 1;
      var front := path[..n];
      assert forall j :: 0 <= j < |front| ==> front[j] == path[j] && path[j] in path;
      assert path[n] in path && Extends(parts, At(k, path[n]));
      hide Extends;
      ReopenExtends(parts, k, open, into, front);
      var r := Reopen(k, open, into, path);
      if path[n] > |into| { assert r == Reopen(k, open, into, front) + [At(k, path[n])]; }
      forall d | 0 <= d < |r| ensures Extends(parts, r[d]) {
        if path[n] <= |into| { assert r[d] == open[d]; }
      }
    }
  }

  lemma NextExtends(parts: seq<Part>, k: nat, open: seq<At>, s: Shape)
    requires k < |parts| && parts[k].sections != [] && (s.Chain? ==> s.n <= |open|)
    requires forall d :: 0 <= d < |open| ==> Extends(parts, open[d])
    ensures var r := NextOpen(parts[k], k, open, s); forall d :: 0 <= d < |r| ==> Extends(parts, r[d])
  {
    var p := parts[k];
    WalkExtends(p.sections, RootElems(p), [], |p.sections|);
    var path := OpenPath(p);
    assert forall x :: x in path ==> x >= 1 && Extends(parts, At(k, x));
    hide Walk, OpenPath, Extends;
    if !s.Moved? && path != [] {
      ReopenExtends(parts, k, open, Into(s, |open|), path);
      assert NextOpen(p, k, open, s) == Reopen(k, open, Into(s, |open|), path);
    }
  }

  lemma NextPlan(parts: seq<Part>, j: nat)
    requires 0 < j <= |parts| && PlanTo(parts, j).Ok?
    ensures PlanTo(parts, j - 1).Ok?
    ensures parts[j - 1].sections == [] ==> Open(parts, j) == Open(parts, j - 1)
    ensures parts[j - 1].sections != [] ==>
              var s := ShapeOf(parts[j - 1], j - 1, |Open(parts, j - 1)|);
              && s.Ok? && (s.value.Chain? ==> s.value.n <= |Open(parts, j - 1)|)
              && Open(parts, j) == NextOpen(parts[j - 1], j - 1, Open(parts, j - 1), s.value)
  {
    hide ShapeOf, NextOpen;
  }

  lemma {:induction false} OpenExtends(parts: seq<Part>, j: nat)
    requires j <= |parts| && PlanTo(parts, j).Ok?
    ensures forall d :: 0 <= d < |Open(parts, j)| ==> Extends(parts, Open(parts, j)[d])
    decreases j
  {
    if j > 0 {
      hide Extends, ShapeOf, NextOpen;
      NextPlan(parts, j);
      OpenExtends(parts, j - 1);
      if parts[j - 1].sections != [] {
        NextExtends(parts, j - 1, Open(parts, j - 1), ShapeOf(parts[j - 1], j - 1, |Open(parts, j - 1)|).value);
      }
    }
  }

  // What a part gives an open section is still there when that section is written.

  lemma {:induction false} FoldInKeeps(folds: Folds, open: seq<At>, p: Part, k: nat, s: Shape, n: nat, at: At,
      c: Continuation)
    requires n <= |open| && c in Collected(folds, at)
    ensures c in Collected(FoldIn(folds, open, p, k, s, n), at)
    decreases n
  {
    hide *;
    FoldInStep(folds, open, p, k, s, n);
    if n > 0 {
      FoldInKeeps(folds, open, p, k, s, n - 1, at, c);
      CollectAt(FoldIn(folds, open, p, k, s, n - 1), open[n - 1], Gives(p, k, s, |open|, n), at);
    }
  }

  lemma {:induction false} FoldsKeep(parts: seq<Part>, shapes: seq<Shape>, i: nat, j: nat, at: At, c: Continuation)
    requires i <= j <= |parts| == |shapes| && PlanTo(parts, j).Ok? && PlanTo(parts, i).Ok?
    requires c in Collected(FoldsTo(parts, shapes, i), at)
    ensures c in Collected(FoldsTo(parts, shapes, j), at)
    decreases j
  {
    hide *;
    if i < j {
      NextPlan(parts, j);
      NextFolds(parts, shapes, j);
      FoldsKeep(parts, shapes, i, j - 1, at, c);
      if parts[j - 1].sections != [] {
        FoldInKeeps(FoldsTo(parts, shapes, j - 1), Open(parts, j - 1), parts[j - 1], j - 1, shapes[j - 1],
                    |Open(parts, j - 1)|, at, c);
      }
    }
  }

  lemma OpenApart(parts: seq<Part>, shapes: seq<Shape>, j: nat)
    requires Planned(parts, shapes, j)
    ensures forall i, e :: 0 <= i < e < |Open(parts, j)| ==> Open(parts, j)[i] != Open(parts, j)[e]
    ensures forall d :: 0 <= d < |Open(parts, j)| ==> Keeps(parts, shapes, Open(parts, j)[d])
  {
    OpenOnce(parts, shapes, j);
    hide *;
    KeptApart(parts, shapes, Open(parts, j), j);
  }

  lemma KeptApart(parts: seq<Part>, shapes: seq<Shape>, ats: seq<At>, j: nat)
    requires |parts| == |shapes| && KeptOnce(parts, shapes, ats, j)
    ensures forall i, e :: 0 <= i < e < |ats| ==> ats[i] != ats[e]
    ensures forall d :: 0 <= d < |ats| ==> Keeps(parts, shapes, ats[d])
  {}

  /** What part k gives the open section at depth d. */
  lemma GivenKept(parts: seq<Part>, shapes: seq<Shape>, k: nat, d: nat)
    requires k < |parts| == |shapes| && parts[k].sections != [] && Planned(parts, shapes, |parts|)
    requires PlanTo(parts, k).Ok? && 0 < d <= |Open(parts, k)| && PlanTo(parts, |parts|).Ok?
    requires Gives(parts[k], k, shapes[k], |Open(parts, k)|, d).Some?
    ensures Gives(parts[k], k, shapes[k], |Open(parts, k)|, d).value
         in Collected(FoldsTo(parts, shapes, |parts|), Open(parts, k)[d - 1])
  {
    hide *;
    PlannedPrefix(parts, shapes, k);
    PlannedPrefix(parts, shapes, k + 1);
    OpenApart(parts, shapes, k);
    NextFolds(parts, shapes, k + 1);
    var open, c := Open(parts, k), Gives(parts[k], k, shapes[k], |Open(parts, k)|, d);
    FoldInAt(FoldsTo(parts, shapes, k), open, parts[k], k, shapes[k], |open|, d - 1);
    GivenIn(Collected(FoldsTo(parts, shapes, k), open[d - 1]), c);
    FoldsKeep(parts, shapes, k + 1, |parts|, open[d - 1], c.value);
  }

  lemma GivenIn(cs: seq<Continuation>, c: Option<Continuation>)
    requires c.Some?
    ensures c.value in cs + Given(c)
  {
    assert (cs + Given(c))[|cs|] == c.value;
  }

  // So everything is checked.

  /** A section is written with what it collected only if all of that can be renumbered. */
  lemma CollectedChecked(parts: seq<Part>, shs: seq<Shift>, cs: seq<Continuation>, k: nat, i: nat, c: Continuation)
    requires k < |parts| == |shs| && i < |parts[k].sections| && Apt(shs, cs) && SectionWrites(parts, shs, cs, k, i)
    requires Extensible(parts[k].sections[i]) && c in cs
    ensures c.k < |parts| && AllRenumber(parts[c.k], shs[c.k], Contents(c))
  {
    hide AllRenumber;
    var sec := parts[k].sections[i];
    var all := [Continuation(k, sec.elements, Spans(sec))] + cs;
    var n :| 0 <= n < |cs| && cs[n] == c;
    assert all[n + 1] == c;
  }

  lemma OwnChecked(parts: seq<Part>, shs: seq<Shift>, cs: seq<Continuation>, k: nat, i: nat)
    requires k < |parts| == |shs| && i < |parts[k].sections| && Apt(shs, cs) && SectionWrites(parts, shs, cs, k, i)
    ensures AllRenumber(parts[k], shs[k], Elems(parts[k].sections[i]))
    ensures cs != [] ==> Within(Spans(parts[k].sections[i]), parts[k].length)
  {
    hide Renumbers;
    var sec := parts[k].sections[i];
    if cs != [] && sec.elements.Some? {
      var all := [Continuation(k, sec.elements, Spans(sec))] + cs;
      assert all[0] == Continuation(k, sec.elements, Spans(sec));
      assert Contents(all[0]) == Elems(sec);
    }
  }

  /** The merge is planned to the end, and every check on the way is passed. */
  ghost predicate Goes(parts: seq<Part>, shapes: seq<Shape>, sep: nat) {
    && |parts| == |shapes| && PlanTo(parts, |parts|).Ok? && Planned(parts, shapes, |parts|)
    && AllApt(Shifts(parts, shapes, sep), FoldsTo(parts, shapes, |parts|))
    && AllWrite(parts, shapes, Shifts(parts, shapes, sep), FoldsTo(parts, shapes, |parts|))
  }

  lemma Going(parts: seq<Part>, sep: nat)
    requires Accepts(parts, sep) && !NoSections(parts)
    ensures PlanTo(parts, |parts|).Ok? && Goes(parts, PlanTo(parts, |parts|).value.shapes, sep)
  {
    AcceptsWhen(parts, sep);
    AllPlanned(parts);
    hide PlanTo, Planned, AllApt, AllWrite, SectionsAgree, NoSections, Shifts, FoldsTo;
  }

  lemma Writes(parts: seq<Part>, shapes: seq<Shape>, sep: nat, k: nat, i: nat)
    requires Goes(parts, shapes, sep) && k < |parts| && SecDrop(shapes[k]) < i < |parts[k].sections|
    ensures PlanTo(parts, |parts|).Ok?
    ensures var shs, cs := Shifts(parts, shapes, sep), Collected(FoldsTo(parts, shapes, |parts|), At(k, i));
            Apt(shs, cs) && SectionWrites(parts, shs, cs, k, i)
  {
    hide SectionWrites, ListsRenumber, PlanTo, Planned, Shifts, FoldsTo, SecDrop;
    var shs, folds := Shifts(parts, shapes, sep), FoldsTo(parts, shapes, |parts|);
    assert PartWrites(parts, shapes, shs, folds, k);
  }

  lemma GoesParts(parts: seq<Part>, shapes: seq<Shape>, sep: nat)
    requires Goes(parts, shapes, sep)
    ensures |parts| == |shapes| && PlanTo(parts, |parts|).Ok? && Planned(parts, shapes, |parts|)
    ensures Apt(Shifts(parts, shapes, sep), RootLists(parts, shapes, |parts|))
    ensures ListsRenumber(parts, Shifts(parts, shapes, sep), RootLists(parts, shapes, |parts|))
  {
    hide ListsRenumber, PlanTo, Planned, PartWrites, FoldsTo;
  }

  lemma {:induction false} RootListIn(parts: seq<Part>, shapes: seq<Shape>, j: nat, k: nat) returns (n: nat)
    requires k < j <= |parts| == |shapes| && parts[k].sections != []
    ensures n < |RootLists(parts, shapes, j)| && RootLists(parts, shapes, j)[n] == RootList(parts[k], k, shapes[k])
    decreases j
  {
    hide RootList;
    if k == j - 1 { n := |RootLists(parts, shapes, j)| - 1; } else { n := RootListIn(parts, shapes, j - 1, k); }
  }

  /** Whatever the part keeps at the root or gives an open section can be renumbered. */
  lemma ShareChecked(parts: seq<Part>, shapes: seq<Shape>, sep: nat, k: nat, d: nat)
    requires Goes(parts, shapes, sep) && k < |parts| && parts[k].sections != []
    requires PlanTo(parts, k).Ok? && d <= |Open(parts, k)|
    ensures |shapes| == |parts|
    ensures AllRenumber(parts[k], Shifts(parts, shapes, sep)[k],
                        ShareElems(parts[k], shapes[k], |Open(parts, k)|, d))
  {
    hide *;
    GoesParts(parts, shapes, sep);
    PlannedPrefix(parts, shapes, k + 1);
    PlannedBefore(parts, shapes, k + 1);
    var open, shs := Open(parts, k), Shifts(parts, shapes, sep);
    if d == 0 {
      var n := RootListIn(parts, shapes, |parts|, k);
      RootShareIs(parts[k], k, |open|, shapes[k]);
      ListChecked(parts, shs, RootLists(parts, shapes, |parts|), n);
    } else {
      GivesShare(parts[k], k, shapes[k], |open|, d);
      if Gives(parts[k], k, shapes[k], |open|, d).Some? {
        PlannedPrefix(parts, shapes, k);
        GivenKept(parts, shapes, k, d);
        OpenApart(parts, shapes, k);
        OpenExtends(parts, k);
        var at := open[d - 1];
        KeepsIs(parts, shapes, at);
        ExtendsIs(parts, at);
        Writes(parts, shapes, sep, at.k, at.i);
        CollectedChecked(parts, shs, Collected(FoldsTo(parts, shapes, |parts|), at), at.k, at.i,
                         Gives(parts[k], k, shapes[k], |open|, d).value);
      } else {
        NothingRenumbers(parts[k], shs[k]);
      }
    }
  }

  lemma ExtendsIs(parts: seq<Part>, at: At)
    requires Extends(parts, at)
    ensures at.k < |parts| && at.i < |parts[at.k].sections| && Extensible(parts[at.k].sections[at.i])
  {}

  lemma KeepsIs(parts: seq<Part>, shapes: seq<Shape>, at: At)
    requires |parts| == |shapes| && Keeps(parts, shapes, at)
    ensures at.k < |parts| && SecDrop(shapes[at.k]) < at.i < |parts[at.k].sections|
  {}

  lemma RootShareIs(p: Part, k: nat, depth: nat, s: Shape)
    requires p.sections != [] && ShapeOf(p, k, depth) == Ok(s)
    ensures Contents(RootList(p, k, s)) == ShareElems(p, s, depth, 0) && RootList(p, k, s).k == k
  {
    RootShare(p, k, depth, s);
    hide ShapeOf, ShareElems;
    assert |RootElems(p)| == 0 ==> RootElems(p) == [];
  }

  lemma ListChecked(parts: seq<Part>, shs: seq<Shift>, lists: seq<Continuation>, n: nat)
    requires |parts| == |shs| && Apt(shs, lists) && ListsRenumber(parts, shs, lists) && n < |lists|
    ensures lists[n].k < |parts| && AllRenumber(parts[lists[n].k], shs[lists[n].k], Contents(lists[n]))
  {
    hide AllRenumber;
  }

  // Where each pointer of a part goes.

  /** The sections a chain folds away, but the last one, open with the pointer to the next. */
  lemma {:induction false} ChainOpens(p: Part, i: nat, depth: nat, n: nat, content: bool, j: nat)
    requires 1 <= i <= depth && ChainFrom(p, i, depth) == Ok(Chain(n, content)) && i <= j < n
    ensures j < |p.sections| && n < |p.sections| && Elems(p.sections[j]) != [] && Elems(p.sections[j])[0].Sec?
    decreases n - i
  {
    ChainReaches(p, i, depth);
    if i < j { ChainOpens(p, i + 1, depth, n, content, j); }
  }

  lemma {:induction false} ChainReaches(p: Part, i: nat, depth: nat)
    requires 1 <= i <= depth + 1
    ensures ChainFrom(p, i, depth).Ok? && ChainFrom(p, i, depth).value.Chain? ==>
              i < |p.sections| && ChainFrom(p, i, depth).value.n < |p.sections|
    decreases |p.sections| - i
  {
    if i < |p.sections| && i <= depth { ChainReaches(p, i + 1, depth); }
  }

  /** Every pointer to an item of a section folded away, or of the root, is given to some open section or kept. */
  lemma PointerGoes(p: Part, k: nat, depth: nat, s: Shape, i: nat, n: nat) returns (d: nat)
    requires p.sections != [] && ShapeOf(p, k, depth) == Ok(s) && i <= SecDrop(s) && i < |p.sections|
    requires n < |Elems(p.sections[i])| && Elems(p.sections[i])[n].Leaf?
    ensures d <= depth && Elems(p.sections[i])[n] in ShareElems(p, s, depth, d)
  {
    var es := Elems(p.sections[i]);
    match s {
      case Apart => d := 0;
      case Moved => d := depth;
      case Run(m, _) =>
        d := if n < m then depth else 0;
        assert n >= m ==> es[m..][n - m] == es[n];
        assert n < m ==> es[..m][n] == es[n];
      case Chain(m, content) =>
        assert ChainFrom(p, 1, depth) == Ok(Chain(m, content)) && es == RootElems(p) ==> i > 0 || es[0].Sec?;
        if i < m {
          d := i;
          if i > 0 { ChainOpens(p, 1, depth, m, content, i); }
          assert es[1..][n - 1] == es[n];
        } else {
          ChainReaches(p, 1, depth);
          d := if content then depth else m;
        }
    }
  }

  lemma RenumbersNamed(p: Part, sh: Shift, es: seq<Elem>, n: nat, e: Elem)
    requires AllRenumber(p, sh, es) && e in es && e.Leaf?
    ensures e.n < Count(p, e.m)
  {}

  lemma NamedFrom(p: Part)
    requires forall i, n ::
               0 <= i < |p.sections| && 0 <= n < |Elems(p.sections[i])| && Elems(p.sections[i])[n].Leaf? ==>
                 Elems(p.sections[i])[n].n < Count(p, Elems(p.sections[i])[n].m)
    ensures Named(p)
  {}

  /** A merge that goes through has checked every pointer to an item. */
  lemma GoesNamed(parts: seq<Part>, shapes: seq<Shape>, sep: nat, k: nat)
    requires Goes(parts, shapes, sep) && k < |parts|
    ensures Named(parts[k])
  {
    hide *;
    GoesParts(parts, shapes, sep);
    PlannedPrefix(parts, shapes, k + 1);
    PlannedBefore(parts, shapes, k + 1);
    PlannedPrefix(parts, shapes, k);
    var p, shs := parts[k], Shifts(parts, shapes, sep);
    forall i, n | 0 <= i < |p.sections| && 0 <= n < |Elems(p.sections[i])| && Elems(p.sections[i])[n].Leaf?
      ensures Elems(p.sections[i])[n].n < Count(p, Elems(p.sections[i])[n].m)
    {
      var e := Elems(p.sections[i])[n];
      if i > SecDrop(shapes[k]) {
        Writes(parts, shapes, sep, k, i);
        OwnChecked(parts, shs, Collected(FoldsTo(parts, shapes, |parts|), At(k, i)), k, i);
        RenumbersNamed(p, shs[k], Elems(p.sections[i]), n, e);
      } else {
        var d := PointerGoes(p, k, |Open(parts, k)|, shapes[k], i, n);
        ShareChecked(parts, shapes, sep, k, d);
        RenumbersNamed(p, shs[k], ShareElems(p, shapes[k], |Open(parts, k)|, d), n, e);
      }
    }
    NamedFrom(p);
  }

  /** Each item pointer names one of the part's items. */
  ghost predicate ItemsNamed(p: Part) {
    forall i, n :: 0 <= i < |p.sections| && 0 <= n < |Elems(p.sections[i])| ==>
      match Elems(p.sections[i])[n]
      case Sec(_) => true
      case Leaf(Paragraphs, x) => x < |p.paragraphs|
      case Leaf(Tables, x) => x < |p.tables|
      case Leaf(Figures, x) => x < |p.figures|
      case Leaf(KeyValuePairs, x) => x < |p.pairs|
  }

  lemma NamedPlain(p: Part)
    ensures Named(p) <==> ItemsNamed(p)
  {}

  /** No pointer the merge writes, of any accepted parts, is to an item the part has not. */
  lemma AcceptedNamed(parts: seq<Part>, sep: nat)
    requires Accepts(parts, sep)
    ensures forall k :: 0 <= k < |parts| ==> ItemsNamed(parts[k])
  {
    hide *;
    forall k | 0 <= k < |parts| ensures ItemsNamed(parts[k]) {
      NamedPlain(parts[k]);
      if NoSections(parts) {
        NothingNamed(parts, k);
      } else {
        Going(parts, sep);
        GoesNamed(parts, PlanTo(parts, |parts|).value.shapes, sep, k);
      }
    }
  }

  lemma NothingNamed(parts: seq<Part>, k: nat)
    requires NoSections(parts) && k < |parts|
    ensures Named(parts[k])
  {}

  lemma FitsWhenWritten(parts: seq<Part>, shapes: seq<Shape>, sep: nat, k: nat)
    requires Goes(parts, shapes, sep) && k < |parts|
    ensures |shapes| == |parts| && PlanTo(parts, |parts|).Ok?
    ensures SpansFit(parts, shapes, FoldsTo(parts, shapes, |parts|), k)
  {
    GoesParts(parts, shapes, sep);
    hide Goes, Collected, FoldsTo, Shifts, SecDrop, PlanTo, Within, RootLists, ListsRenumber, Planned, Apt;
    var folds := FoldsTo(parts, shapes, |parts|);
    forall i | SecDrop(shapes[k]) < i < |parts[k].sections| && Collected(folds, At(k, i)) != []
      ensures Within(Spans(parts[k].sections[i]), parts[k].length)
    {
      Writes(parts, shapes, sep, k, i);
      OwnChecked(parts, Shifts(parts, shapes, sep), Collected(folds, At(k, i)), k, i);
    }
  }

  lemma NothingContinued(parts: seq<Part>, shapes: seq<Shape>, folds: Folds, k: nat)
    requires NoSections(parts) && k < |parts| == |shapes|
    ensures SpansFit(parts, shapes, folds, k)
  {}

  /**
   * Parts whose sections are trees are merged exactly when they agree on having sections, every pointer to an item
   * names one, the plan is not refused, and the kept sections that later parts continue have spans within their
   * part's content.
   */
  lemma AcceptedExactly(parts: seq<Part>, sep: nat, forests: seq<Forest>)
    requires AllTrees(parts, forests)
    ensures Accepts(parts, sep) <==>
              && SectionsAgree(parts) && PlanTo(parts, |parts|).Ok?
              && var shapes := PlanTo(parts, |parts|).value.shapes;
                 forall k :: 0 <= k < |parts| ==>
                   ItemsNamed(parts[k]) && SpansFit(parts, shapes, FoldsTo(parts, shapes, |parts|), k)
  {
    hide *;
    AcceptsWhen(parts, sep);
    if PlanTo(parts, |parts|).Ok? {
      var shapes := PlanTo(parts, |parts|).value.shapes;
      var folds := FoldsTo(parts, shapes, |parts|);
      AllPlanned(parts);
      if Accepts(parts, sep) {
        AcceptedNamed(parts, sep);
        forall k | 0 <= k < |parts| ensures SpansFit(parts, shapes, folds, k) {
          if NoSections(parts) {
            NothingContinued(parts, shapes, folds, k);
          } else {
            Going(parts, sep);
            FitsWhenWritten(parts, shapes, sep, k);
          }
        }
      }
      if SectionsAgree(parts)
         && forall k :: 0 <= k < |parts| ==> ItemsNamed(parts[k]) && SpansFit(parts, shapes, folds, k)
      {
        forall k | 0 <= k < |parts| ensures Named(parts[k]) { NamedPlain(parts[k]); }
        WritesAll(parts, shapes, sep, forests);
      }
    }
  }

  lemma RenumbersPlain(p: Part, sh: Shift, es: seq<Elem>)
    requires AllRenumber(p, sh, es)
    ensures forall n :: 0 <= n < |es| && es[n].Sec? ==> es[n].i < |p.sections| && (es[n].i == 0 || es[n].i > sh.secDrop)
  {}

  /**
   * And, trees or not: no section that is kept holds a pointer to a section the part has not, or to one that was
   * folded into an earlier part's.
   */
  lemma AcceptedSections(parts: seq<Part>, sep: nat, k: nat, i: nat, n: nat)
    requires Accepts(parts, sep) && k < |parts|
    ensures PlanTo(parts, |parts|).Ok?
    ensures var drop := SecDrop(PlanTo(parts, |parts|).value.shapes[k]);
            drop < i < |parts[k].sections| && n < |Elems(parts[k].sections[i])|
            && Elems(parts[k].sections[i])[n].Sec? ==>
              var x := Elems(parts[k].sections[i])[n].i;
              x < |parts[k].sections| && (x == 0 || x > drop)
  {
    hide *;
    AcceptsWhen(parts, sep);
    if |parts[k].sections| > 0 {
      SomeSection(parts, k);
      Going(parts, sep);
      var shapes, shs := PlanTo(parts, |parts|).value.shapes, Shifts(parts, PlanTo(parts, |parts|).value.shapes, sep);
      ShiftAt(parts, shapes, sep, k);
      if SecDrop(shapes[k]) < i < |parts[k].sections| {
        Writes(parts, shapes, sep, k, i);
        OwnChecked(parts, shs, Collected(FoldsTo(parts, shapes, |parts|), At(k, i)), k, i);
        RenumbersPlain(parts[k], shs[k], Elems(parts[k].sections[i]));
      }
    }
  }

  lemma SomeSection(parts: seq<Part>, k: nat)
    requires k < |parts| && |parts[k].sections| > 0
    ensures !NoSections(parts)
  {}
}
