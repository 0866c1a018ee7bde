/**
 * What a generated page holds, and what its section says of it (internal/docgen/docgen.go:145-185, 256-299): its
 * paragraphs, each kind as often as it should be there and in its place; the section's elements; and its spans.
 */
module GenSections {
  import opened Sections
  import opened Forest
  import opened SpanSets
  import opened Generate
  import opened GenJoin
  import opened GenProper

  // The paragraphs.

  /** The kinds in the order a page has them in. */
  function Place(k: Kind): nat {
    match k
    case Header => 0
    case Heading => 1
    case Body => 2
    case Marked => 3
    case Cell => 4
    case TableCaption => 5
    case FigureCaption => 6
    case FigureText => 7
    case Footer => 8
    case PageNumber => 9
  }

  function Often(kinds: seq<Kind>, k: Kind): nat { multiset(kinds)[k] }

  lemma OftenJoin(a: seq<Kind>, b: seq<Kind>)
    ensures forall k :: Often(a + b, k) == Often(a, k) + Often(b, k)
  {
    assert multiset(a + b) == multiset(a) + multiset(b);
  }

  /** The kinds of s come in their places, none before place lo and none behind place hi. */
  predicate InPlace(s: seq<Kind>, lo: nat, hi: nat) {
    && (forall i :: 0 <= i < |s| ==> lo <= Place(s[i]) <= hi)
    && (forall i, j :: 0 <= i < j < |s| ==> Place(s[i]) <= Place(s[j]))
  }

  lemma PlaceJoin(a: seq<Kind>, b: seq<Kind>, lo: nat, mid: nat, hi: nat)
    requires InPlace(a, lo, mid) && InPlace(b, mid, hi) && lo <= mid <= hi
    ensures InPlace(a + b, lo, hi)
  {
    hide Place;
    var s := a + b;
    forall i, j | 0 <= i < j < |s| ensures Place(s[i]) <= Place(s[j]) {
      if i < |a| <= j { assert s[i] == a[i] && s[j] == b[j - |a|]; }
    }
  }

  function Perhaps(c: bool, k: Kind): seq<Kind> { if c then [k] else [] }

  lemma PerhapsHolds(c: bool, k: Kind)
    ensures InPlace(Perhaps(c, k), Place(k), Place(k))
    ensures forall x :: Often(Perhaps(c, k), x) == if c && x == k then 1 else 0
  {
    hide Place;
  }

  lemma LinesHold()
    ensures InPlace([Heading, Body, Body], 1, 2)
    ensures forall x :: Often([Heading, Body, Body], x) == if x == Heading then 1 else if x == Body then 2 else 0
  {}

  lemma FrontHolds(b: Book, p: nat)
    ensures InPlace(Front(b, p), 0, 3)
    ensures forall x :: Often(Front(b, p), x) ==
                        if x == Header && b.furniture && p % 2 == 0 then 1
                        else if x == Heading then 1
                        else if x == Body then 2
                        else if x == Marked && b.selections && p % 5 == 0 then 1 else 0
  {
    var a, l, c := Perhaps(b.furniture && p % 2 == 0, Header), [Heading, Body, Body],
                   Perhaps(b.selections && p % 5 == 0, Marked);
    assert Front(b, p) == a + (l + c);
    Places();
    PerhapsHolds(b.furniture && p % 2 == 0, Header);
    PerhapsHolds(b.selections && p % 5 == 0, Marked);
    LinesHold();
    hide Front, Perhaps, InPlace, Often, Place;
    OftenJoin(a, l + c);
    OftenJoin(l, c);
    Wider(l, 1, 0, 2);
    Wider(c, 3, 2, 3);
    PlaceJoin(l, c, 0, 2, 3);
    PlaceJoin(a, l + c, 0, 0, 3);
  }

  lemma Places()
    ensures Place(Header) == 0 && Place(Heading) == 1 && Place(Body) == 2 && Place(Marked) == 3 && Place(Cell) == 4
    ensures Place(TableCaption) == 5 && Place(FigureCaption) == 6 && Place(FigureText) == 7 && Place(Footer) == 8
    ensures Place(PageNumber) == 9
  {}

  lemma CellsHold()
    ensures InPlace([Cell, Cell], 4, 4)
    ensures forall x :: Often([Cell, Cell], x) == if x == Cell then 2 else 0
  {}

  lemma NoneHold(lo: nat, hi: nat)
    ensures InPlace([], lo, hi)
    ensures forall x :: Often([], x) == 0
  {}

  lemma TableHolds(b: Book, p: nat)
    ensures InPlace(TableKinds(b, p), 4, 5)
    ensures forall x :: Often(TableKinds(b, p), x) ==
                        if p % 3 != 0 then 0
                        else if x == Cell then 2
                        else if x == TableCaption && b.captions then 1 else 0
  {
    var c := Perhaps(b.captions, TableCaption);
    assert TableKinds(b, p) == if p % 3 == 0 then [Cell, Cell] + c else [];
    Places();
    PerhapsHolds(b.captions, TableCaption);
    CellsHold();
    NoneHold(4, 5);
    hide TableKinds, Perhaps, InPlace, Often, Place;
    OftenJoin([Cell, Cell], c);
    Wider(c, 5, 4, 5);
    PlaceJoin([Cell, Cell], c, 4, 4, 5);
  }

  lemma FigureHolds(b: Book, p: nat)
    ensures InPlace(FigureKinds(b, p), 6, 7)
    ensures forall x :: Often(FigureKinds(b, p), x) ==
                        if p % 4 != 0 then 0 else if x == FigureText || (x == FigureCaption && b.captions) then 1 else 0
  {
    var c := Perhaps(b.captions, FigureCaption);
    assert FigureKinds(b, p) == if p % 4 == 0 then c + Perhaps(true, FigureText) else [];
    Places();
    PerhapsHolds(b.captions, FigureCaption);
    PerhapsHolds(true, FigureText);
    NoneHold(6, 7);
    hide FigureKinds, Perhaps, InPlace, Often, Place;
    OftenJoin(c, Perhaps(true, FigureText));
    Wider(Perhaps(true, FigureText), 7, 6, 7);
    PlaceJoin(c, Perhaps(true, FigureText), 6, 6, 7);
  }

  lemma FootHolds(b: Book, p: nat)
    ensures InPlace(Foot(b, p), 8, 9)
    ensures forall x :: Often(Foot(b, p), x) ==
                        if !b.furniture then 0 else if (x == Footer && p % 2 == 1) || x == PageNumber then 1 else 0
  {
    var f := Perhaps(p % 2 == 1, Footer);
    assert Foot(b, p) == if b.furniture then f + Perhaps(true, PageNumber) else [];
    Places();
    PerhapsHolds(p % 2 == 1, Footer);
    PerhapsHolds(true, PageNumber);
    NoneHold(8, 9);
    hide Foot, Perhaps, InPlace, Often, Place;
    OftenJoin(f, Perhaps(true, PageNumber));
    Wider(Perhaps(true, PageNumber), 9, 8, 9);
    PlaceJoin(f, Perhaps(true, PageNumber), 8, 8, 9);
  }

  /** The kinds of a page's paragraphs: how often each is there; and they come in their places. */
  lemma PageHolds(b: Book, p: nat)
    ensures forall i, j :: 0 <= i < j < |Kinds(b, p)| ==> Place(Kinds(b, p)[i]) <= Place(Kinds(b, p)[j])
    ensures forall k :: Often(Kinds(b, p), k) ==
                        match k
                        case Header => if b.furniture && p % 2 == 0 then 1 else 0
                        case Heading => 1
                        case Body => 2
                        case Marked => if b.selections && p % 5 == 0 then 1 else 0
                        case Cell => if p % 3 == 0 then 2 else 0
                        case TableCaption => if p % 3 == 0 && b.captions then 1 else 0
                        case FigureCaption => if p % 4 == 0 && b.captions then 1 else 0
                        case FigureText => if p % 4 == 0 then 1 else 0
                        case Footer => if b.furniture && p % 2 == 1 then 1 else 0
                        case PageNumber => if b.furniture then 1 else 0
  {
    var f, t, g, z := Front(b, p), TableKinds(b, p), FigureKinds(b, p), Foot(b, p);
    KindsAre(b, p);
    FrontHolds(b, p);
    TableHolds(b, p);
    FigureHolds(b, p);
    FootHolds(b, p);
    hide Kinds, Front, TableKinds, FigureKinds, Foot, Often;
    OftenJoin(f, t + (g + z));
    OftenJoin(t, g + z);
    OftenJoin(g, z);
    Wider(t, 4, 3, 5);
    Wider(g, 6, 5, 7);
    Wider(z, 8, 7, 9);
    PlaceJoin(g, z, 5, 7, 9);
    PlaceJoin(t, g + z, 3, 5, 9);
    PlaceJoin(f, t + (g + z), 0, 3, 9);
    hide Place;
  }

  lemma Wider(s: seq<Kind>, lo: nat, less: nat, hi: nat)
    requires InPlace(s, lo, hi) && less <= lo
    ensures InPlace(s, less, hi)
  {}

  // The section's elements.

  /** A paragraph the section holds itself. */
  predicate InSection(k: Kind) {
    k == Heading || k == Body || k == Marked || k == TableCaption || k == FigureCaption
  }

  function Number(es: seq<Elem>, e: Elem): nat { multiset(es)[e] }

  lemma NumberMore(es: seq<Elem>, x: Elem)
    ensures forall e :: Number(es + [x], e) == Number(es, e) + if e == x then 1 else 0
  {
    assert multiset(es + [x]) == multiset(es) + multiset([x]);
  }

  lemma HeldNext(kinds: seq<Kind>, n: nat)
    requires n < |kinds|
    ensures var out := Held(kinds, n);
            Held(kinds, n + 1) ==
              if kinds[n] == Cell then
                if out == [] || out[|out| - 1] != Leaf(Tables, 0) then out + [Leaf(Tables, 0)] else out
              else if kinds[n] == FigureText then out + [Leaf(Figures, 0)]
              else if InSection(kinds[n]) then out + [Leaf(Paragraphs, n)] else out
  {}

  predicate IsPara(e: Elem) { e.Leaf? && e.m == Paragraphs }

  /**
   * What the section holds of n paragraphs: once each that is its own, the table once if a cell is there, and the
   * figure as often as a text for it is.
   */
  function Expected(kinds: seq<Kind>, n: nat, e: Elem): nat
    requires n <= |kinds|
  {
    match e
    case Sec(_) => 0
    case Leaf(m, j) =>
      if m == Paragraphs then if j < n && InSection(kinds[j]) then 1 else 0
      else if e == Leaf(Tables, 0) then if Cell in kinds[..n] then 1 else 0
      else if e == Leaf(Figures, 0) then Often(kinds[..n], FigureText) else 0
  }

  lemma ExpectedNext(kinds: seq<Kind>, n: nat, e: Elem)
    requires n < |kinds|
    ensures var k, was := kinds[n], Expected(kinds, n, e);
            Expected(kinds, n + 1, e) ==
              if e == Leaf(Tables, 0) then if k == Cell then 1 else was
              else if e == Leaf(Figures, 0) && k == FigureText then was + 1
              else if e == Leaf(Paragraphs, n) && InSection(k) then 1 else was
  {
    hide Often, InSection;
    assert kinds[..n + 1] == kinds[..n] + [kinds[n]];
    OftenJoin(kinds[..n], [kinds[n]]);
    OnlyOne(kinds[n]);
  }

  lemma OwnNew(kinds: seq<Kind>, n: nat)
    requires n <= |kinds|
    ensures Expected(kinds, n, Leaf(Paragraphs, n)) == 0
  {}

  /** A cell ends the list with the table's pointer; if it is the first, no table's was there. */
  predicate EndsWithTable(es: seq<Elem>) { es != [] && es[|es| - 1] == Leaf(Tables, 0) }

  lemma {:induction false} HeldCounts(kinds: seq<Kind>, n: nat, e: Elem)
    requires n <= |kinds| && Rising(kinds)
    ensures Number(Held(kinds, n), e) == Expected(kinds, n, e)
    ensures n > 0 && kinds[n - 1] == Cell ==> EndsWithTable(Held(kinds, n))
    decreases n, 0
  {
    hide *;
    if n == 0 {
      HeldNone(kinds, e);
    } else {
      var out := Held(kinds, n - 1);
      HeldCounts(kinds, n - 1, e);
      HeldNext(kinds, n - 1);
      ExpectedNext(kinds, n - 1, e);
      OwnNew(kinds, n - 1);
      NumberMore(out, Leaf(Tables, 0));
      NumberMore(out, Leaf(Figures, 0));
      NumberMore(out, Leaf(Paragraphs, n - 1));
      TableLast(out);
      KindApart(kinds[n - 1]);
      if kinds[n - 1] == Cell { TableOnce(kinds, n - 1); }
    }
  }

  lemma KindApart(k: Kind)
    ensures InSection(k) ==> k != Cell && k != FigureText
  {}

  lemma TableLast(es: seq<Elem>)
    ensures EndsWithTable(es) <==> es != [] && es[|es| - 1] == Leaf(Tables, 0)
    ensures EndsWithTable(es + [Leaf(Tables, 0)])
  {}

  lemma HeldNone(kinds: seq<Kind>, e: Elem)
    ensures Number(Held(kinds, 0), e) == Expected(kinds, 0, e)
  {}

  ghost predicate Rising(kinds: seq<Kind>) {
    forall i, j :: 0 <= i < j < |kinds| ==> Place(kinds[i]) <= Place(kinds[j])
  }

  /** Before a cell the table's pointer is there exactly when it is last. */
  lemma {:induction false} TableOnce(kinds: seq<Kind>, n: nat)
    requires n < |kinds| && kinds[n] == Cell && Rising(kinds)
    ensures Expected(kinds, n, Leaf(Tables, 0)) == if EndsWithTable(Held(kinds, n)) then 1 else 0
    decreases n, 1
  {
    var out := Held(kinds, n);
    HeldCounts(kinds, n, Leaf(Tables, 0));
    hide Held, Number;
    if Cell in kinds[..n] {
      CellsMeet(kinds, n);
    } else if EndsWithTable(out) {
      LastCounts(out);
    }
  }

  lemma CellsMeet(kinds: seq<Kind>, n: nat)
    requires n < |kinds| && kinds[n] == Cell && Rising(kinds) && Cell in kinds[..n]
    ensures n > 0 && kinds[n - 1] == Cell
  {
    var i :| 0 <= i < n && kinds[i] == Cell;
    if i < n - 1 { assert Place(kinds[i]) <= Place(kinds[n - 1]); }
    assert Place(kinds[n - 1]) <= Place(kinds[n]);
  }

  /** The section's list for all of a page's paragraphs. */
  lemma ExpectedAll(kinds: seq<Kind>)
    ensures forall j: nat :: Expected(kinds, |kinds|, Leaf(Paragraphs, j))
                             == if j < |kinds| && InSection(kinds[j]) then 1 else 0
    ensures Expected(kinds, |kinds|, Leaf(Tables, 0)) == if Cell in kinds then 1 else 0
    ensures Expected(kinds, |kinds|, Leaf(Figures, 0)) == Often(kinds, FigureText)
    ensures forall e :: Expected(kinds, |kinds|, e) > 0 ==> e == Leaf(Tables, 0) || e == Leaf(Figures, 0) || IsPara(e)
  {
    hide InSection, Often;
    assert kinds[..|kinds|] == kinds;
  }

  lemma LastCounts(es: seq<Elem>)
    requires EndsWithTable(es)
    ensures Number(es, Leaf(Tables, 0)) > 0
  {
    assert es[|es| - 1] in es;
  }

  lemma OnlyOne(k: Kind)
    ensures forall x :: Often([k], x) == if x == k then 1 else 0
  {}

  /** And its own paragraphs in their order. */
  lemma {:induction false} HeldInOrder(kinds: seq<Kind>, n: nat)
    requires n <= |kinds|
    ensures var es := Held(kinds, n);
            && (forall i :: 0 <= i < |es| && IsPara(es[i]) ==> es[i].n < n)
            && forall i, j :: 0 <= i < j < |es| && IsPara(es[i]) && IsPara(es[j]) ==> es[i].n < es[j].n
    decreases n
  {
    if n > 0 {
      HeldInOrder(kinds, n - 1);
      HeldNext(kinds, n - 1);
      hide Held;
    }
  }

  // Its spans.

  /** One separator lies between any two paragraphs in a row. */
  ghost predicate Lined(paras: seq<Para>, sep: nat) {
    forall i, j :: 0 <= i < j < |paras| && j == i + 1 ==> End(paras[i].span) + sep == paras[j].span.offset
  }

  /** q is in paragraph j, which a section holds, or between it and the next, if a section holds that too. */
  predicate Reached(paras: seq<Para>, j: nat, q: int) {
    && j < |paras| && !Furniture(paras[j].kind) && paras[j].span.offset <= q
    && (q < End(paras[j].span)
        || (j + 1 < |paras| && !Furniture(paras[j + 1].kind) && q < paras[j + 1].span.offset))
  }

  /** Where the last run ends: with the last paragraph a section holds, before anything behind that. */
  predicate Ended(runs: seq<Span>, paras: seq<Para>, sep: nat) {
    paras != [] ==>
      var last := paras[|paras| - 1];
      if Furniture(last.kind) then runs != [] ==> End(runs[|runs| - 1]) + sep <= End(last.span)
      else runs != [] && End(runs[|runs| - 1]) == End(last.span)
  }

  lemma RunsNext(paras: seq<Para>, n: nat, sep: nat)
    requires n < |paras|
    ensures var runs := Runs(Own(paras[..n]), sep);
            Runs(Own(paras[..n + 1]), sep) ==
              if Furniture(paras[n].kind) then runs else RunGrown(runs, paras[n].span, sep)
  {
    assert paras[..n + 1][..n] == paras[..n];
    var own := Own(paras[..n]);
    if Furniture(paras[n].kind) {
      assert own + [] == own;
    } else {
      assert (own + [paras[n].span])[..|own|] == own;
    }
    hide RunGrown, Furniture;
  }

  lemma GrownIn(runs: seq<Span>, s: Span, sep: nat, q: int)
    requires runs != [] ==> End(runs[|runs| - 1]) + sep <= s.offset
    ensures var r := RunGrown(runs, s, sep);
            && r != [] && End(r[|r| - 1]) == End(s)
            && (In(q, r) <==>
                  || In(q, runs) || s.offset <= q < End(s)
                  || (runs != [] && End(runs[|runs| - 1]) + sep == s.offset && End(runs[|runs| - 1]) <= q < s.offset))
  {
    var r := RunGrown(runs, s, sep);
    if runs != [] && End(runs[|runs| - 1]) + sep == s.offset {
      var last := runs[|runs| - 1];
      InJoin(q, runs[..|runs| - 1], [last]);
      InJoin(q, runs[..|runs| - 1], [r[|r| - 1]]);
      InOne(q, last);
      InOne(q, r[|r| - 1]);
      assert runs == runs[..|runs| - 1] + [last];
    } else {
      InJoin(q, runs, [s]);
      InOne(q, s);
    }
    hide In;
  }

  lemma ReachedNext(paras: seq<Para>, was: seq<Para>, now: seq<Para>, n: nat, q: int)
    requires n < |paras| && was == paras[..n] && now == paras[..n + 1]
    ensures forall j: nat :: j + 1 < n ==> (Reached(now, j, q) <==> Reached(was, j, q))
    ensures Reached(now, n, q) <==> !Furniture(paras[n].kind) && paras[n].span.offset <= q < End(paras[n].span)
    ensures n > 0 ==>
              (Reached(now, n - 1, q) <==>
                || Reached(was, n - 1, q)
                || (!Furniture(paras[n - 1].kind) && !Furniture(paras[n].kind)
                    && paras[n - 1].span.offset <= q < paras[n].span.offset))
    ensures forall j: nat :: j > n ==> !Reached(now, j, q)
    ensures forall j: nat :: j >= n ==> !Reached(was, j, q)
  {
    hide Furniture;
    assert forall j :: 0 <= j < n ==> was[j] == paras[j] == now[j];
    assert now[n] == paras[n];
  }

  /** The runs of the paragraphs some section holds cover those, and the separators between two of them. */
  lemma {:induction false} RunsReach(paras: seq<Para>, n: nat, sep: nat, q: int)
    requires n <= |paras| && Lined(paras, sep) && sep > 0
    ensures In(q, Runs(Own(paras[..n]), sep)) <==> exists j: nat :: Reached(paras[..n], j, q)
    ensures Ended(Runs(Own(paras[..n]), sep), paras[..n], sep)
    decreases n
  {
    hide *;
    if n == 0 {
      NothingReached(paras, sep, q);
    } else {
      var m := n - 1;
      var runs := Runs(Own(paras[..m]), sep);
      RunsReach(paras, m, sep, q);
      RunsNext(paras, m, sep);
      if m == 0 { NothingReached(paras, sep, q); }
      EndedBefore(runs, paras, m, sep);
      EndedNext(runs, paras, m, sep);
      if !Furniture(paras[m].kind) { GrownIn(runs, paras[m].span, sep, q); }
      ReachedOver(paras, paras[..m], paras[..n], m, q);
      if m > 0 { BehindStart(paras, m, sep); }
    }
  }

  lemma NothingReached(paras: seq<Para>, sep: nat, q: int)
    ensures Runs(Own(paras[..0]), sep) == [] && !In(q, []) && Ended([], paras[..0], sep)
    ensures !exists j: nat :: Reached(paras[..0], j, q)
  {}

  lemma BehindStart(paras: seq<Para>, n: nat, sep: nat)
    requires 0 < n < |paras| && Lined(paras, sep)
    ensures paras[n - 1].span.offset <= End(paras[n - 1].span) <= paras[n].span.offset
    ensures End(paras[n - 1].span) + sep == paras[n].span.offset
  {}

  lemma EndedBefore(runs: seq<Span>, paras: seq<Para>, n: nat, sep: nat)
    requires n < |paras| && Lined(paras, sep) && sep > 0 && Ended(runs, paras[..n], sep) && (n == 0 ==> runs == [])
    ensures runs != [] ==> n > 0 && End(runs[|runs| - 1]) + sep <= paras[n].span.offset
    ensures runs != [] ==>
              (End(runs[|runs| - 1]) + sep == paras[n].span.offset <==> !Furniture(paras[n - 1].kind))
    ensures n > 0 && !Furniture(paras[n - 1].kind) ==> runs != [] && End(runs[|runs| - 1]) == End(paras[n - 1].span)
  {
    hide Furniture;
    if n > 0 { assert paras[..n][n - 1] == paras[n - 1]; }
  }

  lemma EndedNext(runs: seq<Span>, paras: seq<Para>, n: nat, sep: nat)
    requires n < |paras| && (runs != [] ==> End(runs[|runs| - 1]) + sep <= paras[n].span.offset)
    ensures Furniture(paras[n].kind) ==> Ended(runs, paras[..n + 1], sep)
    ensures !Furniture(paras[n].kind) ==> Ended(RunGrown(runs, paras[n].span, sep), paras[..n + 1], sep)
  {
    assert paras[..n + 1][n] == paras[n];
  }

  lemma ReachedOver(paras: seq<Para>, was: seq<Para>, now: seq<Para>, n: nat, q: int)
    requires n < |paras|
    requires was == paras[..n] && now == paras[..n + 1]
    ensures (exists j: nat :: Reached(now, j, q)) <==>
              || (exists j: nat :: Reached(was, j, q))
              || (!Furniture(paras[n].kind) && paras[n].span.offset <= q < End(paras[n].span))
              || (n > 0 && !Furniture(paras[n - 1].kind) && !Furniture(paras[n].kind)
                  && End(paras[n - 1].span) <= q < paras[n].span.offset)
  {
    ReachedNext(paras, was, now, n, q);
    if n > 0 && !Furniture(paras[n - 1].kind) && paras[n - 1].span.offset <= q < End(paras[n - 1].span) {
      assert Reached(was, n - 1, q);
    }
    hide Reached, Furniture;
    if j: nat :| Reached(was, j, q) { assert Reached(now, j, q); }
    if j: nat :| Reached(now, j, q) { assert Reached(now, j, q); }
  }

  lemma PageLined(b: Book, p: nat, num: int)
    ensures Lined(PageParas(b, p, num), Sep(b))
  {
    hide *;
    var paras := PageParas(b, p, num);
    if |paras| > 0 { KindsMany(b, p, num); }
    forall i, j | 0 <= i < j < |paras| && j == i + 1 ensures End(paras[i].span) + Sep(b) == paras[j].span.offset {
      KindsMany(b, p, num);
      ParaIs(b, p, num, i);
      ParaIs(b, p, num, j);
      OffNext(b, p, i);
      EndIs(paras[i].span);
    }
    LinedFrom(paras, Sep(b));
  }

  lemma EndIs(s: Span)
    ensures End(s) == s.offset + s.length
  {}

  lemma KindsMany(b: Book, p: nat, num: int)
    ensures |PageParas(b, p, num)| == |Kinds(b, p)|
  {
    hide Kinds, ParaAt;
  }

  lemma LinedFrom(paras: seq<Para>, sep: nat)
    requires forall i, j :: 0 <= i < j < |paras| && j == i + 1 ==> End(paras[i].span) + sep == paras[j].span.offset
    ensures Lined(paras, sep)
  {}

  /**
   * A page's section: it holds each heading, line, mark and caption of the page once, in their order, and the table
   * and the figure if the page has one, each once; and its spans cover those paragraphs, cells and the figure's text
   * too, and the separators between two in a row, and nothing else.
   */
  lemma SectionHolds(b: Book, p: nat, num: int, q: int)
    requires GoodBook(b) && !Blank(b, p)
    ensures var m := Single(b, p, num);
            && |m.secs| == 1 && m.secs[0].elements.Some? && m.secs[0].spans.Some? && |m.paras| == |Kinds(b, p)|
            && (var es := m.secs[0].elements.value;
                && (forall j: nat :: Number(es, Leaf(Paragraphs, j))
                      == if j < |m.paras| && InSection(m.paras[j].kind) then 1 else 0)
                && Number(es, Leaf(Tables, 0)) == (if p % 3 == 0 then 1 else 0)
                && Number(es, Leaf(Figures, 0)) == (if p % 4 == 0 then 1 else 0)
                && (forall e :: Number(es, e) > 0 ==>
                      e == Leaf(Tables, 0) || e == Leaf(Figures, 0) || IsPara(e))
                && (forall i, j :: 0 <= i < j < |es| && IsPara(es[i]) && IsPara(es[j]) ==> es[i].n < es[j].n))
            && (In(q, m.secs[0].spans.value) <==> exists j: nat :: Reached(m.paras, j, q))
  {
    hide *;
    SingleIs(b, p, num);
    var m, kinds, paras := Single(b, p, num), Kinds(b, p), PageParas(b, p, num);
    PageHolds(b, p);
    RisingFrom(kinds);
    forall e ensures Number(Held(kinds, |kinds|), e) == Expected(kinds, |kinds|, e) { HeldCounts(kinds, |kinds|, e); }
    ExpectedAll(kinds);
    HeldInOrder(kinds, |kinds|);
    CellsTogether(b, p);
    PageLined(b, p, num);
    SepIs(b);
    assert paras[..|paras|] == paras;
    RunsReach(paras, |paras|, Sep(b), q);
    forall j | 0 <= j < |paras| ensures paras[j].kind == kinds[j] { ParaIs(b, p, num, j); }
  }

  lemma RisingFrom(kinds: seq<Kind>)
    requires forall i, j :: 0 <= i < j < |kinds| ==> Place(kinds[i]) <= Place(kinds[j])
    ensures Rising(kinds)
  {}
}
