/**
 * Every run of a job's parts (internal/engine/parts.go): nothing lost, a bounded cost, an end, and its own name
 * for every file.
 */
module FanRuns {
  import opened Lists
  import opened Planning
  import opened FanSpec
  import opened FanNames

  /** The most attempts a job of n pages in k parts makes before it is sent whole. */
  function AttemptBound(n: nat, k: nat): int { PART_ATTEMPTS * (2 * n - k) + WHOLE_ATTEMPTS * n }

  predicate AllPages(parts: seq<Pages>) { forall i :: 0 <= i < |parts| ==> parts[i] != [] }

  lemma {:induction false} InitialSums(parts: seq<Pages>)
    requires AllPages(parts)
    ensures AllLeft(Initial(parts).line) == AttemptBound(|Concat(parts)|, |parts|)
    ensures AllSteps(Initial(parts).line) == AttemptBound(|Concat(parts)|, |parts|) + 2 * |Concat(parts)| - |parts|
    decreases |parts|
  {
    if parts != [] {
      var most, last := parts[..|parts| - 1], parts[|parts| - 1];
      InitialSums(most);
      assert Initial(parts).line == Initial(most).line + [Slot(last, Trying(0))];
      assert (Initial(most).line + [Slot(last, Trying(0))])[..|most|] == Initial(most).line;
    }
  }

  lemma {:induction false} InitialDone(parts: seq<Pages>)
    requires AllPages(parts)
    ensures DonePages(Initial(parts).line) == multiset{} && PagesOf(Initial(parts).line) == parts
    decreases |parts|
  {
    if parts != [] {
      InitialDone(parts[..|parts| - 1]);
      assert Initial(parts).line[..|parts| - 1] == Initial(parts[..|parts| - 1]).line;
    }
  }

  lemma InitialHolds(parts: seq<Pages>, pages: Pages)
    requires AllPages(parts) && Concat(parts) == pages && Ascending(pages)
    ensures Inv(Initial(parts), pages) && NamesInv(Initial(parts))
  {
    InitialDone(parts);
    hide Concat, DonePages;
    var f := Initial(parts);
    assert Covers(f.line, pages);
    hide Ascending, PagesOf;
    forall k, i | 0 <= k < |f.files| && 0 <= i < |f.line| ensures Clear(f.files[k], NameOf(f.line[i].pages)) {
      InitialClear(parts, pages, k, i);
    }
    forall i, j | 0 <= i < j < |f.files| ensures f.files[i] != f.files[j] { InitialClear(parts, pages, i, j); }
  }

  lemma InitialClear(parts: seq<Pages>, pages: Pages, k: nat, i: nat)
    requires AllPages(parts) && Covers(Initial(parts).line, pages) && Ascending(pages) && k < |parts| && i < |parts|
    ensures Initial(parts).files[k] == NameOf(parts[k])
    ensures Clear(NameOf(parts[k]), NameOf(parts[i])) && (k < i ==> NameOf(parts[k]) != NameOf(parts[i]))
  {
    var line := Initial(parts).line;
    hide Covers;
    if k < i {
      Apart(line, pages, k, i);
      Apart(line, pages, i, i);
      InOrder(line[i].pages);
    } else if i < k {
      Apart(line, pages, i, k);
    }
  }

  lemma InOrder(p: Pages)
    requires p != [] && Ascending(p)
    ensures NameOf(p).0 <= NameOf(p).1
  {}

  /** Every run keeps the invariants, and counts no more attempts and steps than were left. */
  lemma {:induction false} RunKeeps(f: Fan, steps: seq<Step>, g: Fan, pages: Pages)
    requires Inv(f, pages) && NamesInv(f) && Ascending(pages) && Reaches(f, steps, g)
    ensures Inv(g, pages) && NamesInv(g)
    ensures g.attempts + AllLeft(g.line) <= f.attempts + AllLeft(f.line)
    ensures |steps| + AllSteps(g.line) <= AllSteps(f.line)
    decreases |steps|
  {
    if steps != [] {
      hide Inv, NamesInv, Next, AllLeft, AllSteps, Ascending;
      NextKeeps(f, steps[0], pages);
      NextNames(f, steps[0], pages);
      NextSpends(f, steps[0], pages);
      RunKeeps(Next(f, steps[0]), steps[1..], g, pages);
    }
  }

  lemma {:induction false} SomeLeft(line: seq<Slot>, failed: bool)
    requires AllOk(line, failed)
    ensures AllLeft(line) >= 0 && AllSteps(line) >= 0
    decreases |line|
  {
    if line != [] {
      SomeLeft(line[..|line| - 1], failed);
      assert SlotOk(line[|line| - 1], failed);
    }
  }

  /**
   * Whatever the calls answer, a job of n pages in k parts makes at most 3(2n - k) + 5n attempts, ends, and
   * never gives two part files one name.
   */
  lemma RunsAreBounded(parts: seq<Pages>, pages: Pages, steps: seq<Step>, g: Fan)
    requires AllPages(parts) && Concat(parts) == pages && Ascending(pages) && Reaches(Initial(parts), steps, g)
    ensures g.attempts <= 3 * (2 * |pages| - |parts|) + 5 * |pages|
    ensures |steps| <= 3 * (2 * |pages| - |parts|) + 5 * |pages| + 2 * |pages| - |parts|
    ensures Distinct(g.files)
  {
    hide Inv, Concat, AllLeft, AllSteps, Reaches, PagesOf, DonePages;
    InitialHolds(parts, pages);
    InitialSums(parts);
    RunKeeps(Initial(parts), steps, g, pages);
    InvParts(g, pages);
    SomeLeft(g.line, g.failed);
  }

  /**
   * At every moment of a job that has not failed, the parts done and those still at work have the selected
   * pages, in order; and the results are those of the parts done.
   */
  lemma RunsCover(parts: seq<Pages>, pages: Pages, steps: seq<Step>, g: Fan)
    requires AllPages(parts) && Concat(parts) == pages && Ascending(pages) && Reaches(Initial(parts), steps, g)
    ensures Covers(g.line, pages) && multiset(g.results) == DonePages(g.line)
    ensures !g.failed ==> forall i :: 0 <= i < |g.line| ==> g.line[i].phase == Done || Active(g.line[i].phase)
    ensures forall i, j :: 0 <= i < j < |g.line| ==> NameOf(g.line[i].pages).1 < NameOf(g.line[j].pages).0
  {
    hide Concat, PagesOf, DonePages, Reaches, NamesInv, AllLeft, AllSteps, Ascending;
    InitialHolds(parts, pages);
    RunKeeps(Initial(parts), steps, g, pages);
    forall i, j | 0 <= i < j < |g.line| ensures NameOf(g.line[i].pages).1 < NameOf(g.line[j].pages).0 {
      Apart(g.line, pages, i, j);
    }
  }

  // When all parts are done, sorting the results gives the pages.

  /** The order the merge wants the results in. */
  predicate ByFirstPage(results: seq<Pages>) {
    && AllPages(results)
    && forall i, j :: 0 <= i < j < |results| ==> results[i][0] <= results[j][0]
  }

  predicate Strictly(results: seq<Pages>) {
    && AllPages(results)
    && forall i, j :: 0 <= i < j < |results| ==> results[i][0] < results[j][0]
  }

  lemma SortedLast(a: seq<Pages>, b: seq<Pages>)
    requires ByFirstPage(a) && Strictly(b) && multiset(a) == multiset(b) && |a| == |b| > 0
    ensures a[|a| - 1] == b[|b| - 1]
  {
    var p, q := a[|a| - 1], b[|b| - 1];
    assert p in multiset(b) && q in multiset(a) by { assert p in multiset(a) && q in multiset(b); }
    var i := InMultiset(b, p);
    var j := InMultiset(a, q);
    assert q[0] <= p[0];
    assert b[i][0] >= b[|b| - 1][0];
  }

  lemma SortedDrop(a: seq<Pages>, b: seq<Pages>)
    requires ByFirstPage(a) && Strictly(b) && a != [] && b != []
    ensures ByFirstPage(a[..|a| - 1]) && Strictly(b[..|b| - 1])
  {}

  /** There is one way to sort parts that start on different pages. */
  lemma {:induction false} SortedOnce(a: seq<Pages>, b: seq<Pages>)
    requires ByFirstPage(a) && Strictly(b) && multiset(a) == multiset(b)
    ensures a == b
    decreases |a|
  {
    assert |a| == |multiset(a)| == |multiset(b)| == |b|;
    if a != [] {
      hide *;
      SortedLast(a, b);
      SortedDrop(a, b);
      DropLast(a);
      DropLast(b);
      SortedOnce(a[..|a| - 1], b[..|b| - 1]);
    }
  }

  lemma {:induction false} DoneAll(line: seq<Slot>)
    requires forall i :: 0 <= i < |line| ==> line[i].phase == Done
    ensures DonePages(line) == multiset(PagesOf(line))
    decreases |line|
  {
    if line != [] {
      DoneAll(line[..|line| - 1]);
      assert PagesOf(line) == PagesOf(line[..|line| - 1]) + [line[|line| - 1].pages];
    }
  }

  /**
   * When a job's parts have all ended without failing it, its results sorted by their first pages are the
   * selected pages: the check that they cover them cannot fail.
   */
  lemma CoverageHolds(parts: seq<Pages>, pages: Pages, steps: seq<Step>, g: Fan, sorted: seq<Pages>)
    requires AllPages(parts) && Concat(parts) == pages && Ascending(pages) && Reaches(Initial(parts), steps, g)
    requires !g.failed && forall i :: 0 <= i < |g.line| ==> !Active(g.line[i].phase)
    requires multiset(sorted) == multiset(g.results) && ByFirstPage(sorted)
    ensures Concat(sorted) == pages
  {
    hide Concat, DonePages, Reaches, Ascending;
    RunsCover(parts, pages, steps, g);
    DoneAll(g.line);
    LineStrict(g.line, pages);
    SortedOnce(sorted, PagesOf(g.line));
  }

  lemma LineStrict(line: seq<Slot>, pages: Pages)
    requires Covers(line, pages) && Ascending(pages)
    ensures Strictly(PagesOf(line))
  {
    hide Concat;
    var parts := PagesOf(line);
    forall i, j | 0 <= i < j < |parts| ensures parts[i][0] < parts[j][0] {
      Apart(line, pages, i, j);
      InOrder(line[i].pages);
    }
  }
}
