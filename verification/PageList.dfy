/** Reading, selecting and writing pages (internal/pdfsplit/pages.go), as the loops that do it. */
module PageList {
  import opened Lists
  import opened Sections
  import opened Planning
  import opened PageText

  function Onward(done: seq<PageRange>, rest: Option<seq<PageRange>>): Option<seq<PageRange>> {
    if rest.None? then None else Some(done + rest.value)
  }

  lemma NothingYet(rest: Option<seq<PageRange>>)
    ensures Onward([], rest) == rest
  {
    if rest.Some? { assert [] + rest.value == rest.value; }
  }

  lemma OneTerm(done: seq<PageRange>, r: PageRange, rest: Option<seq<PageRange>>)
    ensures Onward(done, Onward([r], rest)) == Onward(done + [r], rest)
  {
    if rest.Some? { assert done + ([r] + rest.value) == done + [r] + rest.value; }
  }

  lemma OnwardIs(done: seq<PageRange>, rest: Option<seq<PageRange>>)
    ensures Onward(done, rest) == if rest.None? then None else Some(done + rest.value)
  {}

  lemma ParsedIs(spec: string)
    ensures var i := IndexOf(spec, ',');
            && i <= |spec|
            && (Term(spec[..i]).None? ==> Parsed(spec).None?)
            && (Term(spec[..i]).Some? && i == |spec| ==> Parsed(spec) == Some([Term(spec[..i]).value]))
            && (Term(spec[..i]).Some? && i < |spec| ==>
                  Parsed(spec) == Onward([Term(spec[..i]).value], Parsed(spec[i + 1..])))
  {
    hide Term;
  }

  lemma TermProper(t: string)
    requires Term(t).Some?
    ensures Proper(Term(t).value)
  {}

  lemma OneMore(done: seq<PageRange>, r: PageRange)
    requires AllProper(done) && Proper(r)
    ensures AllProper(done + [r])
  {}

  lemma NoneProper()
    ensures AllProper([])
  {}

  /** The ranges a selection names; not ok for anything that is not one. */
  method ParsePages(spec: string) returns (ranges: seq<PageRange>, ok: bool)
    ensures ok <==> Parsed(spec).Some?
    ensures ok ==> ranges == Parsed(spec).value && ranges != [] && AllProper(ranges)
  {
    hide *;
    ranges := [];
    var rest, more := spec, true;
    NoneProper();
    NothingYet(Parsed(spec));
    while more
      invariant AllProper(ranges)
      invariant more ==> Parsed(spec) == Onward(ranges, Parsed(rest))
      invariant !more ==> Parsed(spec) == Some(ranges) && ranges != []
      decreases |rest|, more
    {
      ParsedIs(rest);
      var i := IndexOf(rest, ',');
      var term := Term(rest[..i]);
      if term.None? {
        OnwardIs(ranges, None);
        return [], false;
      }
      TermProper(rest[..i]);
      OneMore(ranges, term.value);
      if i == |rest| {
        OnwardIs(ranges, Some([term.value]));
        more := false;
      } else {
        OneTerm(ranges, term.value, Parsed(rest[i + 1..]));
        rest := rest[i + 1..];
      }
      ranges := ranges + [term.value];
    }
    ok := true;
  }

  predicate ByFirst(rs: seq<PageRange>) { forall i, j :: 0 <= i < j < |rs| ==> rs[i].first <= rs[j].first }

  lemma SameNamed(a: seq<PageRange>, b: seq<PageRange>, p: int)
    requires multiset(a) == multiset(b) && Named(a, p)
    ensures Named(b, p)
  {
    var i :| 0 <= i < |a| && Holds(a[i], p);
    assert a[i] in multiset(b);
    var j :| 0 <= j < |b| && b[j] == a[i];
  }

  lemma NamedLast(rs: seq<PageRange>, i: nat, p: int)
    requires i < |rs|
    ensures Named(rs[..i + 1], p) <==> Named(rs[..i], p) || Holds(rs[i], p)
  {
    if Named(rs[..i + 1], p) {
      var k :| 0 <= k < i + 1 && Holds(rs[..i + 1][k], p);
      assert k < i ==> Holds(rs[..i][k], p);
    }
    if Named(rs[..i], p) {
      var k :| 0 <= k < i && Holds(rs[..i][k], p);
      assert Holds(rs[..i + 1][k], p);
    }
    if Holds(rs[i], p) { assert Holds(rs[..i + 1][i], p); }
  }

  /** What is selected of the first ranges: those of their pages, and none is missing below next. */
  ghost predicate Partly(sorted: seq<PageRange>, i: nat, pages: Pages, next: int)
    requires i <= |sorted|
  {
    && Ascending(pages)
    && (forall p :: p in pages <==> Named(sorted[..i], p))
    && (forall k :: 0 <= k < |pages| ==> pages[k] < next)
    && (forall k :: 0 <= k < i ==> sorted[k].last < next)
    && (next == 1 || (i > 0 && exists k :: 0 <= k < i && sorted[k].last + 1 == next))
  }

  /** Below next, a page of the next range is a page of an earlier one that starts no later. */
  lemma Skipped(sorted: seq<PageRange>, i: nat, pages: Pages, next: int, p: int)
    requires i < |sorted| && ByFirst(sorted) && Partly(sorted, i, pages, next) && 1 <= sorted[i].first
    requires Holds(sorted[i], p) && p < next
    ensures Named(sorted[..i], p)
  {
    var k :| 0 <= k < i && sorted[k].last + 1 == next;
    assert Holds(sorted[..i][k], p);
  }

  /** The pages from lo to last appended. */
  method AppendRange(pages: Pages, lo: int, last: int) returns (r: Pages)
    requires Ascending(pages) && forall k :: 0 <= k < |pages| ==> pages[k] < lo
    ensures Ascending(r) && forall p :: p in r <==> p in pages || lo <= p <= last
    ensures forall k :: 0 <= k < |r| ==> r[k] < lo || r[k] <= last
  {
    r := pages;
    var p := lo;
    while p <= last
      invariant lo <= p && (lo <= last ==> p <= last + 1) && (lo > last ==> p == lo)
      invariant Ascending(r) && forall k :: 0 <= k < |r| ==> r[k] < p
      invariant forall q :: q in r <==> q in pages || lo <= q < p
      decreases last + 1 - p
    {
      r := r + [p];
      p := p + 1;
    }
  }

  lemma PartlyNext(sorted: seq<PageRange>, i: nat, pages: Pages, next: int, more: Pages, lo: int)
    requires i < |sorted| && ByFirst(sorted) && Partly(sorted, i, pages, next) && 1 <= sorted[i].first <= sorted[i].last
    requires lo == (if sorted[i].first > next then sorted[i].first else next)
    requires Ascending(more) && forall p :: p in more <==> p in pages || lo <= p <= sorted[i].last
    ensures Partly(sorted, i + 1, more, if sorted[i].last + 1 > next then sorted[i].last + 1 else next)
  {
    var r := sorted[i];
    var after := if r.last + 1 > next then r.last + 1 else next;
    forall p ensures p in more <==> Named(sorted[..i + 1], p) {
      NamedLast(sorted, i, p);
      if Holds(r, p) && p < next { Skipped(sorted, i, pages, next, p); }
    }
    forall k | 0 <= k < |more| ensures more[k] < after {
      assert more[k] in more;
      if more[k] in pages {
        var j :| 0 <= j < |pages| && pages[j] == more[k];
      }
    }
    assert after == r.last + 1 ==> sorted[i].last + 1 == after;
    assert next > 1 && after == next ==> exists k :: 0 <= k < i && sorted[k].last + 1 == next;
  }

  function FirstOf(r: PageRange): int { r.first }

  lemma SortedIs(rs: seq<PageRange>)
    requires InKeyOrder(rs, FirstOf)
    ensures ByFirst(rs)
  {
    forall i, j | 0 <= i < j < |rs| ensures rs[i].first <= rs[j].first { assert FirstOf(rs[i]) <= FirstOf(rs[j]); }
  }

  /**
   * The pages the ranges name, ascending and each once, whatever the order and the overlaps of the ranges; not
   * ok if there are none, or one is malformed or reaches past count.
   */
  method Select(ranges: seq<PageRange>, count: int) returns (pages: Pages, ok: bool)
    ensures ok <==> Selectable(ranges, count)
    ensures ok ==> Selection(ranges, pages)
  {
    pages := [];
    ok := false;
    if |ranges| == 0 { return; }
    for i := 0 to |ranges|
      invariant forall k :: 0 <= k < i ==> 1 <= ranges[k].first <= ranges[k].last <= count
    {
      var r := ranges[i];
      if r.first < 1 || r.first > r.last || r.last > count { return; }
    }
    var sorted := SortedBy(ranges, FirstOf);
    SortedIs(sorted);
    AllGood(ranges, sorted, count);
    var next := 1;
    for i := 0 to |sorted|
      invariant Partly(sorted, i, pages, next) && next >= 1
    {
      var r := sorted[i];
      var lo := if r.first > next then r.first else next;
      var more := AppendRange(pages, lo, r.last);
      PartlyNext(sorted, i, pages, next, more, lo);
      pages := more;
      next := if r.last + 1 > next then r.last + 1 else next;
    }
    assert sorted[..|sorted|] == sorted;
    forall p ensures p in pages <==> Named(ranges, p) {
      if Named(ranges, p) { SameNamed(ranges, sorted, p); }
      if Named(sorted, p) { SameNamed(sorted, ranges, p); }
    }
    ok := true;
  }

  lemma AllGood(a: seq<PageRange>, b: seq<PageRange>, count: int)
    requires multiset(a) == multiset(b) && forall k :: 0 <= k < |a| ==> 1 <= a[k].first <= a[k].last <= count
    ensures forall k :: 0 <= k < |b| ==> 1 <= b[k].first <= b[k].last <= count
  {
    forall k | 0 <= k < |b| ensures 1 <= b[k].first <= b[k].last <= count {
      assert b[k] in multiset(a);
      var j :| 0 <= j < |a| && a[j] == b[k];
    }
  }

  /** Ranges not yet written, after those that are. */
  function Joined(written: string, rest: seq<PageRange>): string
    requires AllProper(rest)
  {
    if rest == [] then written else if written == "" then Text(rest) else written + "," + Text(rest)
  }

  /** The pages as text: each run of consecutive pages one term. */
  method FormatPages(pages: Pages) returns (text: string)
    requires AllProper(Runs(pages, 0))
    ensures text == Formatted(pages)
  {
    hide *;
    text := "";
    var i := 0;
    NothingWritten(pages);
    while i < |pages|
      invariant 0 <= i <= |pages| && AllProper(Runs(pages, i))
      invariant Joined(text, Runs(pages, i)) == Formatted(pages)
      decreases |pages| - i
    {
      ghost var before := text;
      var j := i;
      while j + 1 < |pages| && pages[j + 1] == pages[j] + 1
        invariant i <= j < |pages| && RunEnd(pages, i) == RunEnd(pages, j)
        decreases |pages| - j
      {
        RunGoesOn(pages, j);
        j := j + 1;
      }
      RunStops(pages, j);
      FirstRun(pages, i);
      if |text| > 0 {
        text := text + ",";
      }
      text := text + Itoa(pages[i]);
      if j > i {
        text := text + "-" + Itoa(pages[j]);
      }
      OneRun(before, PageRange(pages[i], pages[j]), Runs(pages, j + 1), text);
      i := j + 1;
    }
    AllWritten(pages, text);
  }

  lemma NothingWritten(pages: Pages)
    requires AllProper(Runs(pages, 0))
    ensures Joined("", Runs(pages, 0)) == Formatted(pages)
  {}

  lemma AllWritten(pages: Pages, text: string)
    ensures AllProper(Runs(pages, |pages|)) && Joined(text, Runs(pages, |pages|)) == text
  {}

  lemma RunGoesOn(pages: Pages, j: nat)
    requires j + 1 < |pages| && pages[j + 1] == pages[j] + 1
    ensures RunEnd(pages, j) == RunEnd(pages, j + 1)
  {}

  lemma RunStops(pages: Pages, j: nat)
    requires j < |pages| && !(j + 1 < |pages| && pages[j + 1] == pages[j] + 1)
    ensures RunEnd(pages, j) == j
  {}

  lemma FirstRun(pages: Pages, i: nat)
    requires i < |pages| && AllProper(Runs(pages, i))
    ensures var j := RunEnd(pages, i);
            && Runs(pages, i) == [PageRange(pages[i], pages[j])] + Runs(pages, j + 1)
            && Proper(PageRange(pages[i], pages[j])) && AllProper(Runs(pages, j + 1))
            && 0 <= pages[i] && 0 <= pages[j] && (j > i <==> pages[i] < pages[j])
  {
    var j := RunEnd(pages, i);
    RunsFrom(pages, i);
    ProperParts(PageRange(pages[i], pages[j]), Runs(pages, j + 1));
  }

  lemma ProperParts(r: PageRange, rest: seq<PageRange>)
    ensures AllProper([r] + rest) <==> Proper(r) && AllProper(rest)
  {
    var all := [r] + rest;
    assert all[0] == r;
    forall k | 0 <= k < |rest| ensures all[k + 1] == rest[k] {}
  }

  /** The text so far, and what comes before the next run. */
  function Lead(before: string): string { if before == "" then "" else before + "," }

  lemma OneRun(before: string, r: PageRange, rest: seq<PageRange>, text: string)
    requires Proper(r) && AllProper(rest)
    requires text == (if |before| > 0 then before + "," else before) + Itoa(r.first)
                     + (if r.first < r.last then "-" + Itoa(r.last) else "")
    ensures AllProper([r] + rest) && Joined(text, rest) == Joined(before, [r] + rest)
  {
    ProperParts(r, rest);
    hide AllProper, Itoa;
    var lead := Lead(before);
    assert text == lead + TermText(r);
    TextFirst(r, rest);
    if rest != [] { assert (lead + TermText(r)) + "," + Text(rest) == lead + (TermText(r) + "," + Text(rest)); }
  }

  lemma TextFirst(r: PageRange, rest: seq<PageRange>)
    requires AllProper([r] + rest) && AllProper(rest) && 0 <= r.first <= r.last
    ensures Text([r] + rest) == if rest == [] then TermText(r) else TermText(r) + "," + Text(rest)
    ensures TermText(r) != ""
  {
    var all := [r] + rest;
    assert all[1..] == rest && all[0] == r;
  }

  /** A list of pages, written, read back and selected from a document that has them all. */
  method RoundTrip(pages: Pages, count: int) returns (again: Pages)
    requires pages != [] && Ascending(pages) && count <= MAX_INT
    requires forall k :: 0 <= k < |pages| ==> 1 <= pages[k] <= count
    ensures again == pages
  {
    PagesRoundTrip(pages, count);
    hide *;
    var text := FormatPages(pages);
    var ranges, read := ParsePages(text);
    var selected;
    again, selected := Select(ranges, count);
  }
}
