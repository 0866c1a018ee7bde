/**
 * Where the parts of a job lie among its pages, and why no two part files share a name
 * (internal/engine/workdir.go:69-74).
 */
module FanNames {
  import opened Lists
  import opened Planning
  import opened FanSpec

  /** Where part i starts among the pages. */
  function Offset(line: seq<Slot>, i: nat): nat
    requires i <= |line|
    decreases i
  {
    if i == 0 then 0 else Offset(line, i - 1) + |line[i - 1].pages|
  }

  lemma {:induction false} OffsetIs(line: seq<Slot>, i: nat)
    requires i <= |line|
    ensures Offset(line, i) == |Concat(PagesOf(line[..i]))|
    decreases i
  {
    if i > 0 {
      OffsetIs(line, i - 1);
      assert PagesOf(line[..i]) == PagesOf(line[..i - 1]) + [line[i - 1].pages];
      ConcatLast(PagesOf(line[..i - 1]), line[i - 1].pages);
    }
  }

  lemma {:induction false} OffsetsGrow(line: seq<Slot>, i: nat, j: nat)
    requires i < j <= |line|
    ensures Offset(line, i) + |line[i].pages| <= Offset(line, j)
    decreases j
  {
    if i < j - 1 { OffsetsGrow(line, i, j - 1); }
  }

  /** Part i is a run of the pages. */
  lemma PartAt(line: seq<Slot>, i: nat, pages: Pages)
    requires i < |line| && Concat(PagesOf(line)) == pages
    ensures Offset(line, i) + |line[i].pages| <= |pages|
    ensures line[i].pages == pages[Offset(line, i)..Offset(line, i) + |line[i].pages|]
  {
    hide Concat, PagesOf, Offset;
    Around(line, i);
    LineParts(line[..i], [line[i]], line[i + 1..]);
    One(line[i]);
    OffsetIs(line, i);
  }

  /** Parts lie apart, in the order of the line, and each ascends. */
  lemma Apart(line: seq<Slot>, pages: Pages, i: nat, j: nat)
    requires Covers(line, pages) && Ascending(pages) && i <= j < |line|
    ensures line[i].pages != [] && line[j].pages != [] && Ascending(line[i].pages)
    ensures i < j ==> NameOf(line[i].pages).1 < NameOf(line[j].pages).0
  {
    hide Concat, PagesOf, Offset;
    PartAt(line, i, pages);
    PartAt(line, j, pages);
    if i < j { OffsetsGrow(line, i, j); }
  }

  /** A name that says nothing of a part, or something no shorter than it. */
  predicate Clear(n: Name, p: Name) { n.1 < p.0 || p.1 < n.0 || (n.0 <= p.0 && p.1 <= n.1) }

  /** No part file written so far can get the name of one still to be cut. */
  ghost predicate NamesInv(f: Fan) {
    && Distinct(f.files)
    && (forall i :: 0 <= i < |f.line| ==> f.line[i].pages != [])
    && (forall k, i :: 0 <= k < |f.files| && 0 <= i < |f.line| && Active(f.line[i].phase) ==>
          Clear(f.files[k], NameOf(f.line[i].pages)))
  }

  /** The halves of a part have names of their own, inside its own. */
  lemma HalfNames(p: Pages)
    requires |p| >= 2 && Ascending(p)
    ensures var halves := Halve(p);
            var a, b, whole := NameOf(halves.0), NameOf(halves.1), NameOf(p);
            whole.0 == a.0 <= a.1 < b.0 <= b.1 == whole.1
  {
    var halves := Halve(p);
    assert p == halves.0 + halves.1;
  }

  lemma DistinctMore<T>(s: seq<T>, x: T)
    requires Distinct(s) && x !in s
    ensures Distinct(s + [x])
  {}

  /** A half's name is new. */
  lemma HalfNew(files: seq<Name>, whole: Name, a: Name, b: Name)
    requires forall k :: 0 <= k < |files| ==> Clear(files[k], whole)
    requires whole.0 == a.0 <= a.1 < b.0 <= b.1 == whole.1 && Distinct(files)
    ensures Distinct(files + [a]) && Distinct(files + [a, b])
  {
    forall k | 0 <= k < |files| ensures files[k] != a && files[k] != b { assert Clear(files[k], whole); }
    DistinctMore(files, a);
    DistinctMore(files + [a], b);
    assert (files + [a]) + [b] == files + [a, b];
  }

  lemma MovedNames(f: Fan, i: nat, phase: Phase)
    requires NamesInv(f) && i < |f.line| && Active(f.line[i].phase)
    ensures NamesInv(Moved(f, i, phase))
  {
    hide Clear, Distinct;
  }

  /** What was clear of a part is clear of its halves. */
  lemma CutClear(f: Fan, i: nat, pages: Pages, k: nat, j: nat)
    requires Inv(f, pages) && Ascending(pages) && NamesInv(f) && Enabled(f, Cut(i, 2))
    requires k < |Next(f, Cut(i, 2)).files| && j < |Next(f, Cut(i, 2)).line|
    requires Next(f, Cut(i, 2)).line[j].pages != [] && Active(Next(f, Cut(i, 2)).line[j].phase)
    ensures Clear(Next(f, Cut(i, 2)).files[k], NameOf(Next(f, Cut(i, 2)).line[j].pages))
  {
    hide Inv, Halve, Concat, PagesOf;
    var g, p := Next(f, Cut(i, 2)), f.line[i].pages;
    var halves := Halve(p);
    InvCovers(f, pages);
    Apart(f.line, pages, i, i);
    HalfNames(p);
    CutIs(f, i);
    var was := if j < i then j else if j < i + 2 then i else j - 1;
    assert g.line[j] == if j < i then f.line[j] else if j == i then Slot(halves.0, Trying(0))
                        else if j == i + 1 then Slot(halves.1, Trying(0)) else f.line[j - 1];
    if k < |f.files| {
      assert g.files[k] == f.files[k];
      assert Clear(f.files[k], NameOf(f.line[was].pages));
    } else {
      assert g.files[k] == if k == |f.files| then NameOf(halves.0) else NameOf(halves.1);
      if was < i { Apart(f.line, pages, was, i); }
      if i < was { Apart(f.line, pages, i, was); }
    }
  }

  lemma InvCovers(f: Fan, pages: Pages)
    requires Inv(f, pages)
    ensures Covers(f.line, pages)
  {}

  lemma CutNames(f: Fan, i: nat, made: nat, pages: Pages)
    requires Inv(f, pages) && Ascending(pages) && NamesInv(f) && Enabled(f, Cut(i, made))
    ensures NamesInv(Next(f, Cut(i, made)))
  {
    hide Inv, Concat, PagesOf, Distinct, Clear, Halve;
    var p, g := f.line[i].pages, Next(f, Cut(i, made));
    var halves := Halve(p);
    var a, b := NameOf(halves.0), NameOf(halves.1);
    InvCovers(f, pages);
    Apart(f.line, pages, i, i);
    HalfNames(p);
    HalfNew(f.files, NameOf(p), a, b);
    if made == 2 {
      CutIs(f, i);
      InvCovers(f, pages);
      NextKeeps(f, Cut(i, 2), pages);
      InvCovers(g, pages);
      forall k, j | 0 <= k < |g.files| && 0 <= j < |g.line| && Active(g.line[j].phase)
        ensures Clear(g.files[k], NameOf(g.line[j].pages))
      {
        CutClear(f, i, pages, k, j);
      }
    } else {
      FailedCutNames(f, i, made, pages);
    }
  }

  /** A cut that failed leaves at most one more file, and a part that is cut no more. */
  lemma FailedCutNames(f: Fan, i: nat, made: nat, pages: Pages)
    requires Inv(f, pages) && Ascending(pages) && NamesInv(f) && Enabled(f, Cut(i, made)) && made < 2
    ensures NamesInv(Next(f, Cut(i, made)))
  {
    hide Inv, Concat, PagesOf, Halve;
    var p, g := f.line[i].pages, Next(f, Cut(i, made));
    var halves := Halve(p);
    var a, b := NameOf(halves.0), NameOf(halves.1);
    InvCovers(f, pages);
    Apart(f.line, pages, i, i);
    HalfNames(p);
    HalfNew(f.files, NameOf(p), a, b);
    hide Distinct;
    assert [a, b][..made] == if made == 0 then [] else [a];
    assert f.files + [] == f.files;
    assert g.files == f.files + [a, b][..made];
    forall k, j | 0 <= k < |g.files| && 0 <= j < |g.line| && Active(g.line[j].phase)
      ensures Clear(g.files[k], NameOf(g.line[j].pages))
    {
      assert j != i && g.line[j] == f.line[j];
      if k < |f.files| {
        assert g.files[k] == f.files[k];
      } else {
        assert g.files[k] == a;
        if j < i { Apart(f.line, pages, j, i); } else { Apart(f.line, pages, i, j); }
      }
    }
  }

  lemma NextNames(f: Fan, e: Step, pages: Pages)
    requires Inv(f, pages) && Ascending(pages) && NamesInv(f) && Enabled(f, e)
    ensures NamesInv(Next(f, e))
  {
    hide Inv, Moved, Ascending, Distinct, Clear;
    match e
    case Attempt(i, outcome) =>
      MovedNames(f.(attempts := f.attempts + 1), i, Tried(f.line[i].phase, |f.line[i].pages|, outcome));
    case GiveUp(i) => MovedNames(f, i, Failed);
    case Cut(i, made) => CutNames(f, i, made, pages);
  }
}
