/**
 * What holds of every generated result: each page's section opens with its heading, points at items there are, and
 * lies in the content, which is as long as it is said to be.
 */
module GenProper {
  import opened Sections
  import opened Forest
  import opened Lead
  import opened Renumber
  import opened Incremental
  import opened TextUnits
  import opened Generate
  import opened GenJoin
  import opened GenRuns

  /** The texts are ones a service answers in text elements for, if that is the unit. */
  ghost predicate GoodBook(b: Book) {
    b.unit == TextElements ==> Segments(b.cut) && forall p, j :: !EndsWith(b.text(p, j), CR)
  }

  function Many(m: Model, x: Member): nat {
    match x
    case Paragraphs => |m.paras|
    case Tables => |m.tables|
    case Figures => |m.figures|
    case KeyValuePairs => 0
  }

  predicate There(m: Model, e: Elem) { e.Leaf? && e.n < Many(m, e.m) }

  predicate Titles(m: Model, e: Elem) {
    e.Leaf? && e.m == Paragraphs && e.n < |m.paras| && m.paras[e.n].kind == Heading
  }

  /** A section that opens with a heading, over items and spans of the result. */
  predicate Titled(m: Model, s: Section) {
    && s.elements.Some? && s.spans.Some? && s.elements.value != [] && Titles(m, s.elements.value[0])
    && (forall i :: 0 <= i < |s.elements.value| ==> There(m, s.elements.value[i]))
    && Within(s.spans.value, m.end)
  }

  predicate Proper(b: Book, m: Model) {
    && (forall i :: 0 <= i < |m.secs| ==> Titled(m, m.secs[i]))
    && Spread(m.covered, Sep(b)) && Within(m.covered, m.end)
    && (m.secs == [] <==> m.covered == [])
  }

  // One page.

  lemma KindsStart(b: Book, p: nat)
    ensures var k := if b.furniture && p % 2 == 0 then 1 else 0;
            k < |Kinds(b, p)| && Kinds(b, p)[k] == Heading && forall j :: 0 <= j < k ==> Kinds(b, p)[j] == Header
  {}

  /** What comes before the table, the table, the figure, and the foot of the page. */
  function Front(b: Book, p: nat): seq<Kind> {
    (if b.furniture && p % 2 == 0 then [Header] else []) +
    ([Heading, Body, Body] + (if b.selections && p % 5 == 0 then [Marked] else []))
  }

  function TableKinds(b: Book, p: nat): seq<Kind> {
    if p % 3 == 0 then [Cell, Cell] + (if b.captions then [TableCaption] else []) else []
  }

  function FigureKinds(b: Book, p: nat): seq<Kind> {
    if p % 4 == 0 then (if b.captions then [FigureCaption] else []) + [FigureText] else []
  }

  function Foot(b: Book, p: nat): seq<Kind> {
    if b.furniture then (if p % 2 == 1 then [Footer] else []) + [PageNumber] else []
  }

  lemma KindsAre(b: Book, p: nat)
    ensures Kinds(b, p) == Front(b, p) + (TableKinds(b, p) + (FigureKinds(b, p) + Foot(b, p)))
  {
    var a := if b.furniture && p % 2 == 0 then [Header] else [];
    var c := if b.selections && p % 5 == 0 then [Marked] else [];
    KindsRegroup(a, [Heading, Body, Body], c, TableKinds(b, p) + (FigureKinds(b, p) + Foot(b, p)));
  }

  lemma KindsRegroup(a: seq<Kind>, h: seq<Kind>, c: seq<Kind>, rest: seq<Kind>)
    ensures a + (h + (c + rest)) == (a + (h + c)) + rest
  {}

  lemma FrontPlain(b: Book, p: nat)
    ensures Cell !in Front(b, p) && FigureText !in Front(b, p)
  {}

  lemma FootPlain(b: Book, p: nat)
    ensures Cell !in Foot(b, p) && FigureText !in Foot(b, p) && Cell !in FigureKinds(b, p)
    ensures FigureText in FigureKinds(b, p) <==> p % 4 == 0
    ensures FigureText !in TableKinds(b, p)
  {
    if p % 4 == 0 { assert FigureKinds(b, p)[|FigureKinds(b, p)| - 1] == FigureText; }
  }

  lemma TableStarts(b: Book, p: nat, rest: seq<Kind>)
    ensures p % 3 == 0 ==> |TableKinds(b, p) + rest| >= 2 && (TableKinds(b, p) + rest)[0] == Cell
    ensures p % 3 != 0 ==> TableKinds(b, p) + rest == rest
  {}

  lemma {:induction false} FirstAfter(front: seq<Kind>, rest: seq<Kind>, k: Kind)
    requires k !in front
    ensures First(front + rest, k) == if First(rest, k).None? then None else Some(|front| + First(rest, k).value)
    decreases |front|
  {
    if front == [] {
      assert front + rest == rest;
    } else {
      assert (front + rest)[1..] == front[1..] + rest;
      FirstAfter(front[1..], rest, k);
    }
  }

  lemma InJoined(a: seq<Kind>, b: seq<Kind>, k: Kind)
    ensures k in a + b <==> k in a || k in b
  {}

  /** Two cells one after the other, if there are any. */
  lemma CellsTogether(b: Book, p: nat)
    ensures Cell in Kinds(b, p) <==> p % 3 == 0
    ensures FigureText in Kinds(b, p) <==> p % 4 == 0
    ensures First(Kinds(b, p), Cell).Some? ==> First(Kinds(b, p), Cell).value + 1 < |Kinds(b, p)|
  {
    hide *;
    var tail := FigureKinds(b, p) + Foot(b, p);
    var rest := TableKinds(b, p) + tail;
    KindsAre(b, p);
    FrontPlain(b, p);
    FootPlain(b, p);
    TableStarts(b, p, tail);
    FirstAfter(Front(b, p), rest, Cell);
    InJoined(Front(b, p), rest, Cell);
    InJoined(Front(b, p), rest, FigureText);
    InJoined(TableKinds(b, p), tail, FigureText);
    InJoined(FigureKinds(b, p), Foot(b, p), FigureText);
    InJoined(FigureKinds(b, p), Foot(b, p), Cell);
    if p % 3 == 0 { FirstZero(rest, Cell); }
  }

  lemma FirstZero(kinds: seq<Kind>, k: Kind)
    requires kinds != [] && kinds[0] == k
    ensures First(kinds, k) == Some(0) && k in kinds
  {}

  lemma OffNext(b: Book, p: nat, j: nat)
    ensures Off(b, p, j + 1) == Off(b, p, j) + Length(b, b.text(p, j)) + Sep(b)
  {}

  lemma {:induction false} OffRises(b: Book, p: nat, i: nat, j: nat)
    requires i < j
    ensures Off(b, p, i) + Length(b, b.text(p, i)) + Sep(b) <= Off(b, p, j)
    decreases j
  {
    hide *;
    OffNext(b, p, j - 1);
    if i < j - 1 { OffRises(b, p, i, j - 1); }
  }

  lemma ParaIs(b: Book, p: nat, num: int, j: nat)
    requires j < |Kinds(b, p)|
    ensures |PageParas(b, p, num)| == |Kinds(b, p)|
    ensures PageParas(b, p, num)[j]
             == Para(Kinds(b, p)[j], b.text(p, j), Span(Off(b, p, j), Length(b, b.text(p, j))), num)
  {
    hide Kinds, Off, Length;
  }

  lemma PageEndIs(b: Book, p: nat, n: nat)
    requires n > 0
    ensures PageEnd(b, p, n) == Off(b, p, n - 1) + Length(b, b.text(p, n - 1))
  {
    hide Off, Length;
  }

  /** Where a paragraph stands, and that it is over before the next and the page are. */
  lemma ParaSpans(b: Book, p: nat, num: int)
    ensures var paras := PageParas(b, p, num);
            && |paras| == |Kinds(b, p)|
            && ParasSpread(paras, Sep(b)) && ParasEndBy(paras, PageEnd(b, p, |Kinds(b, p)|))
  {
    hide *;
    var paras := PageParas(b, p, num);
    KindsStart(b, p);
    PageEndIs(b, p, |Kinds(b, p)|);
    forall i, j | 0 <= i < j < |paras| ensures End(paras[i].span) + Sep(b) <= paras[j].span.offset {
      ParaIs(b, p, num, i);
      ParaIs(b, p, num, j);
      EndIs(paras[i].span);
      OffRises(b, p, i, j);
    }
    forall i | 0 <= i < |paras| ensures End(paras[i].span) <= PageEnd(b, p, |Kinds(b, p)|) {
      var n := |Kinds(b, p)| - 1;
      ParaIs(b, p, num, i);
      EndIs(paras[i].span);
      if i < n { OffRises(b, p, i, n); }
    }
    ParasFrom(paras, Sep(b), PageEnd(b, p, |Kinds(b, p)|));
  }

  lemma ParasFrom(paras: seq<Para>, sep: nat, end: nat)
    requires forall i, j :: 0 <= i < j < |paras| ==> End(paras[i].span) + sep <= paras[j].span.offset
    requires forall i :: 0 <= i < |paras| ==> End(paras[i].span) <= end
    ensures ParasSpread(paras, sep) && ParasEndBy(paras, end)
  {}

  lemma OwnIs(paras: seq<Para>)
    requires paras != []
    ensures var last := paras[|paras| - 1];
            Own(paras) == Own(paras[..|paras| - 1]) + if Furniture(last.kind) then [] else [last.span]
  {}

  lemma OwnNone()
    ensures Own([]) == []
  {}

  predicate EndsBy(spans: seq<Span>, x: nat) { forall k :: 0 <= k < |spans| ==> End(spans[k]) <= x }

  predicate ParasEndBy(paras: seq<Para>, x: nat) { forall k :: 0 <= k < |paras| ==> End(paras[k].span) <= x }

  lemma EndsMore(spans: seq<Span>, s: Span, x: nat)
    requires EndsBy(spans, x) && End(s) <= x
    ensures EndsBy(spans + [s], x) && EndsBy(spans + [], x) && spans + [] == spans
  {}

  lemma EndsFront(paras: seq<Para>, x: nat)
    requires ParasEndBy(paras, x) && paras != []
    ensures ParasEndBy(paras[..|paras| - 1], x) && End(paras[|paras| - 1].span) <= x
  {}

  /** The spans kept end where the paragraphs do. */
  lemma {:induction false} OwnEnds(paras: seq<Para>, x: nat)
    requires ParasEndBy(paras, x)
    ensures EndsBy(Own(paras), x)
    decreases |paras|
  {
    hide *;
    if paras == [] {
      OwnNone();
      NoEnds(x);
    } else {
      OwnIs(paras);
      EndsFront(paras, x);
      OwnEnds(paras[..|paras| - 1], x);
      EndsMore(Own(paras[..|paras| - 1]), paras[|paras| - 1].span, x);
    }
  }

  lemma NoEnds(x: nat)
    ensures EndsBy([], x)
  {}

  predicate ParasSpread(paras: seq<Para>, sep: nat) {
    forall i, j :: 0 <= i < j < |paras| ==> End(paras[i].span) + sep <= paras[j].span.offset
  }

  lemma SpreadLess(paras: seq<Para>, sep: nat)
    requires ParasSpread(paras, sep) && paras != []
    ensures ParasSpread(paras[..|paras| - 1], sep)
    ensures |paras| > 1 ==> sep <= paras[|paras| - 1].span.offset
    ensures |paras| > 1 ==> ParasEndBy(paras[..|paras| - 1], paras[|paras| - 1].span.offset - sep)
  {
    if |paras| > 1 { assert End(paras[0].span) + sep <= paras[|paras| - 1].span.offset; }
  }

  lemma SpreadMore(spans: seq<Span>, s: Span, sep: nat)
    requires Spread(spans, sep) && (spans != [] ==> sep <= s.offset && EndsBy(spans, s.offset - sep))
    ensures Spread(spans + [s], sep) && spans + [] == spans
  {}

  /** And stay apart. */
  lemma {:induction false} OwnSpread(paras: seq<Para>, sep: nat)
    requires ParasSpread(paras, sep)
    ensures Spread(Own(paras), sep)
    decreases |paras|
  {
    hide *;
    OwnNone();
    if paras == [] {
      SpreadNone(sep);
    } else {
      var front, last := paras[..|paras| - 1], paras[|paras| - 1];
      OwnIs(paras);
      SpreadLess(paras, sep);
      OwnSpread(front, sep);
      if |paras| > 1 { OwnEnds(front, last.span.offset - sep); } else { assert front == []; }
      SpreadMore(Own(front), last.span, sep);
    }
  }

  lemma SpreadNone(sep: nat)
    ensures Spread([], sep)
  {}

  lemma {:induction false} OwnSome(paras: seq<Para>, k: nat)
    requires k < |paras| && !Furniture(paras[k].kind)
    ensures Own(paras) != []
    decreases |paras|
  {
    hide Furniture;
    if k < |paras| - 1 { OwnSome(paras[..|paras| - 1], k); }
  }

  lemma WithinIs(spans: seq<Span>, end: nat)
    ensures Within(spans, end) <==> EndsBy(spans, end)
  {}

  /** What a page's section holds: nothing but items of the page, and first its heading. */
  lemma {:induction false} HeldIs(kinds: seq<Kind>, n: nat)
    requires n <= |kinds|
    ensures forall i :: 0 <= i < |Held(kinds, n)| ==>
              var e := Held(kinds, n)[i];
              && e.Leaf? && (e.m == Paragraphs ==> e.n < n) && e.m != KeyValuePairs
              && (e.m == Tables ==> e.n == 0 && Cell in kinds) && (e.m == Figures ==> e.n == 0 && FigureText in kinds)
    decreases n
  {
    if n > 0 { HeldIs(kinds, n - 1); }
  }

  lemma {:induction false} HeldStarts(kinds: seq<Kind>, k: nat, n: nat)
    requires k < n <= |kinds| && kinds[k] == Heading && forall j :: 0 <= j < k ==> kinds[j] == Header
    ensures Held(kinds, n) != [] && Held(kinds, n)[0] == Leaf(Paragraphs, k)
    decreases n
  {
    if n == k + 1 {
      HeldNothing(kinds, k);
    } else {
      HeldStarts(kinds, k, n - 1);
    }
  }

  lemma {:induction false} HeldNothing(kinds: seq<Kind>, k: nat)
    requires k <= |kinds| && forall j :: 0 <= j < k ==> kinds[j] == Header
    ensures Held(kinds, k) == []
    decreases k
  {
    if k > 0 { HeldNothing(kinds, k - 1); }
  }

  /** Runs of spans within the content lie within it. */
  lemma {:induction false} RunsWithin(spans: seq<Span>, sep: nat, end: nat)
    requires Within(spans, end)
    ensures Within(Runs(spans, sep), end)
    decreases |spans|
  {
    if spans != [] { RunsWithin(spans[..|spans| - 1], sep, end); }
  }

  lemma SinglePages(b: Book, p: nat, num: int)
    ensures Single(b, p, num).pages != []
  {
    OnePage(b, p, num);
  }

  lemma ItemsOf(paras: seq<Para>, kinds: seq<Kind>, num: int)
    requires |paras| == |kinds|
    requires First(kinds, Cell).Some? ==> First(kinds, Cell).value + 1 < |kinds|
    ensures Cell in kinds ==> |TablesOf(paras, kinds, num)| == 1
    ensures FigureText in kinds ==> |FiguresOf(paras, kinds, num)| == 1
  {}

  /** The page's section opens with its heading. */
  lemma SectionTitled(b: Book, p: nat, num: int)
    requires !Blank(b, p)
    ensures var m := Single(b, p, num); |m.secs| == 1 && Titled(m, m.secs[0])
  {
    hide *;
    var kinds, paras, m := Kinds(b, p), PageParas(b, p, num), Single(b, p, num);
    var n := |kinds|;
    SingleIs(b, p, num);
    KindsStart(b, p);
    var k := if b.furniture && p % 2 == 0 then 1 else 0;
    CellsTogether(b, p);
    ItemsOf(paras, kinds, num);
    HeldIs(kinds, n);
    HeldStarts(kinds, k, n);
    ParaIs(b, p, num, k);
    ParaSpans(b, p, num);
    OwnEnds(paras, PageEnd(b, p, n));
    WithinIs(Own(paras), PageEnd(b, p, n));
    RunsWithin(Own(paras), Sep(b), PageEnd(b, p, n));
    TitledFrom(m, Held(kinds, n), Runs(Own(paras), Sep(b)), kinds, n);
  }

  lemma TitledFrom(m: Model, es: seq<Elem>, spans: seq<Span>, kinds: seq<Kind>, n: nat)
    requires es != [] && Titles(m, es[0]) && Within(spans, m.end) && |m.paras| == n
    requires (Cell in kinds ==> |m.tables| == 1) && (FigureText in kinds ==> |m.figures| == 1)
    requires forall i :: 0 <= i < |es| ==>
               var e := es[i];
               && e.Leaf? && (e.m == Paragraphs ==> e.n < n) && e.m != KeyValuePairs
               && (e.m == Tables ==> e.n == 0 && Cell in kinds) && (e.m == Figures ==> e.n == 0 && FigureText in kinds)
    ensures Titled(m, Section(Some(es), Some(spans)))
  {}

  lemma NotFurniture()
    ensures !Furniture(Heading)
  {}

  lemma SingleProper(b: Book, p: nat, num: int)
    ensures Proper(b, Single(b, p, num))
  {
    hide *;
    var m := Single(b, p, num);
    if Blank(b, p) {
      BlankIs(b, p, num);
      NothingProper(b, m);
    } else {
      SingleIs(b, p, num);
      SectionTitled(b, p, num);
      ParaSpans(b, p, num);
      var paras := PageParas(b, p, num);
      OwnSpread(paras, Sep(b));
      OwnEnds(paras, PageEnd(b, p, |Kinds(b, p)|));
      WithinIs(Own(paras), PageEnd(b, p, |Kinds(b, p)|));
      KindsStart(b, p);
      var k := if b.furniture && p % 2 == 0 then 1 else 0;
      ParaIs(b, p, num, k);
      NotFurniture();
      OwnSome(paras, k);
      OneProper(b, m);
    }
  }

  lemma NothingProper(b: Book, m: Model)
    requires m.secs == [] && m.covered == []
    ensures Proper(b, m)
  {}

  lemma OneProper(b: Book, m: Model)
    requires |m.secs| == 1 && Titled(m, m.secs[0]) && m.covered != []
    requires Spread(m.covered, Sep(b)) && Within(m.covered, m.end)
    ensures Proper(b, m)
  {
    hide Titled, Sep;
  }

  // Pages together.

  lemma TitledMore(g: Model, m: Model, s: Section)
    requires Titled(g, s) && g.end <= m.end
    requires |g.paras| <= |m.paras| && |g.tables| <= |m.tables| && |g.figures| <= |m.figures|
    requires m.paras[..|g.paras|] == g.paras
    ensures Titled(m, s)
  {
    assert forall n :: 0 <= n < |g.paras| ==> m.paras[n] == g.paras[n];
  }

  lemma {:induction false} RenAt(sh: Shift, es: seq<Elem>, i: nat)
    requires i < |es|
    ensures RenElems(sh, es)[i] == RenElem(sh, es[i])
    decreases |es|
  {
    if i > 0 { RenAt(sh, es[1..], i - 1); }
  }

  /** A later page's section, moved with its items. */
  lemma TitledMoved(sh: Shift, h: Model, m: Model, s: Section)
    requires Titled(h, s) && m.end == sh.start + h.end
    requires sh.ptr.paragraphs + |h.paras| <= |m.paras| && sh.ptr.tables + |h.tables| <= |m.tables|
    requires sh.ptr.figures + |h.figures| <= |m.figures|
    requires forall n :: 0 <= n < |h.paras| ==> m.paras[sh.ptr.paragraphs + n].kind == h.paras[n].kind
    ensures Titled(m, RenSection(sh, s))
  {
    var es := s.elements.value;
    forall i | 0 <= i < |es| ensures There(m, RenElems(sh, es)[i]) {
      RenAt(sh, es, i);
      assert There(h, es[i]);
    }
    RenAt(sh, es, 0);
    hide RenElems, Shifted;
  }

  lemma SpreadJoin(a: seq<Span>, sh: Shift, h: seq<Span>, sep: nat, end: nat)
    requires Spread(a, sep) && Spread(h, sep) && Within(a, sh.prevEnd) && sh.start == sh.prevEnd + sep && Within(h, end)
    ensures Spread(a + Shifted(sh, h), sep) && Within(a + Shifted(sh, h), sh.start + end)
  {
    hide Shifted;
  }

  lemma KindsMoved(sh: Shift, g: seq<Para>, h: seq<Para>)
    ensures |MovedParas(sh, h)| == |h|
    ensures (g + MovedParas(sh, h))[..|g|] == g
    ensures forall n :: 0 <= n < |h| ==> (g + MovedParas(sh, h))[|g| + n].kind == h[n].kind
  {}

  lemma ProperParts(b: Book, m: Model)
    requires Proper(b, m)
    ensures forall i :: 0 <= i < |m.secs| ==> Titled(m, m.secs[i])
    ensures Spread(m.covered, Sep(b)) && Within(m.covered, m.end) && (m.secs == [] <==> m.covered == [])
  {}

  lemma ProperFrom(b: Book, m: Model)
    requires forall i :: 0 <= i < |m.secs| ==> Titled(m, m.secs[i])
    requires Spread(m.covered, Sep(b)) && Within(m.covered, m.end) && (m.secs == [] <==> m.covered == [])
    ensures Proper(b, m)
  {
    hide Titled, Sep;
  }

  lemma SecMoved(sh: Shift, secs: seq<Section>)
    ensures |MovedSecs(sh, secs)| == |secs|
    ensures forall i :: 0 <= i < |secs| ==> MovedSecs(sh, secs)[i] == RenSection(sh, secs[i])
  {
    hide RenSection;
  }

  lemma JoinProper(b: Book, g: Model, h: Model)
    requires Proper(b, g) && Proper(b, h)
    ensures Proper(b, Join(b, g, h))
  {
    hide *;
    JoinIs(b, g, h);
    if g.pages != [] && h.pages != [] {
      var sh, m := AfterModel(b, g), Join(b, g, h);
      AfterIs(b, g);
      ListSizes(sh, h);
      ProperParts(b, g);
      ProperParts(b, h);
      KindsMoved(sh, g.paras, h.paras);
      SecMoved(sh, h.secs);
      forall i | 0 <= i < |m.secs| ensures Titled(m, m.secs[i]) {
        if i < |g.secs| {
          TitledMore(g, m, g.secs[i]);
        } else {
          TitledMoved(sh, h, m, h.secs[i - |g.secs|]);
        }
      }
      SpreadJoin(g.covered, sh, h.covered, Sep(b), h.end);
      ProperFrom(b, m);
    }
  }

  lemma {:induction false} BuiltProper(b: Book, pages: seq<nat>, nums: seq<int>)
    requires |nums| == |pages|
    ensures Proper(b, Built(b, pages, nums))
    decreases |pages|
  {
    hide *;
    if pages == [] {
      assert nums == [];
      BuiltNone(b);
      NoneIs();
      NothingProper(b, NONE);
    } else {
      var n := |pages| - 1;
      BuiltLast(b, pages, nums);
      BuiltProper(b, pages[..n], nums[..n]);
      SingleProper(b, pages[n], nums[n]);
      JoinProper(b, Built(b, pages[..n], nums[..n]), Single(b, pages[n], nums[n]));
    }
  }

  lemma NoneIs()
    ensures NONE == Model([], 0, [], [], [], [], [], [])
  {}

  // The content's length.

  ghost predicate Measures(b: Book, s: Text, n: nat) {
    Length(b, s) == n && (b.unit == TextElements ==> !EndsWith(s, CR))
  }

  lemma MeasuresJoin(b: Book, s: Text, n: nat, t: Text, m: nat)
    requires GoodBook(b) && Measures(b, s, n) && Measures(b, t, m)
    ensures Measures(b, s + [LF] + t, n + Sep(b) + m)
  {
    hide Steps, Segments;
    StepsJoin(b.unit, b.cut, s, [LF], t);
    var all := s + [LF] + t;
    if t == [] { assert all[|all| - 1] == LF; } else { assert all[|all| - 1] == t[|t| - 1]; }
  }

  lemma MeasuresNothing(b: Book)
    requires GoodBook(b)
    ensures Measures(b, [], 0)
  {
    hide Segments;
    if b.unit == TextElements { NoClusters(b.cut); }
  }

  /** A line feed counts for one. */
  lemma SepIs(b: Book)
    requires GoodBook(b)
    ensures Sep(b) == 1
  {
    hide Segments;
    if b.unit == TextElements {
      NoClusters(b.cut);
      AtLineFeed(b.cut, [], []);
      assert [] + [LF] + [] == [LF] && [] + [[LF]] + [] == [[LF]];
    } else {
      assert Utf16([LF]) == Utf16([]) + Encode(LF);
    }
  }

  lemma MeasuresText(b: Book, p: nat, j: nat)
    requires GoodBook(b)
    ensures Measures(b, b.text(p, j), Length(b, b.text(p, j)))
  {
    hide Segments;
  }

  lemma PageTextIs(b: Book, p: nat, n: nat)
    requires n > 0
    ensures PageText(b, p, n) == if n == 1 then b.text(p, 0) else PageText(b, p, n - 1) + [LF] + b.text(p, n - 1)
  {}

  lemma OffStart(b: Book, p: nat)
    ensures Off(b, p, 0) == 0
  {}

  lemma {:induction false} PageMeasures(b: Book, p: nat, n: nat)
    requires GoodBook(b) && n > 0
    ensures Measures(b, PageText(b, p, n), PageEnd(b, p, n))
    decreases n
  {
    hide *;
    PageTextIs(b, p, n);
    PageEndIs(b, p, n);
    MeasuresText(b, p, n - 1);
    OffStart(b, p);
    if n > 1 {
      PageMeasures(b, p, n - 1);
      PageEndIs(b, p, n - 1);
      OffNext(b, p, n - 2);
      MeasuresJoin(b, PageText(b, p, n - 1), PageEnd(b, p, n - 1), b.text(p, n - 1), Length(b, b.text(p, n - 1)));
    }
  }

  /** The generated content is as long as its last item's end says. */
  lemma {:induction false} BuiltMeasures(b: Book, pages: seq<nat>, nums: seq<int>)
    requires GoodBook(b) && |nums| == |pages|
    ensures Measures(b, Built(b, pages, nums).content, Built(b, pages, nums).end)
    decreases |pages|
  {
    hide *;
    MeasuresNothing(b);
    if pages == [] {
      assert nums == [];
      BuiltNone(b);
      NoneIs();
    } else {
      var n := |pages| - 1;
      BuiltLast(b, pages, nums);
      BuiltMeasures(b, pages[..n], nums[..n]);
      SingleMeasures(b, pages[n], nums[n]);
      var g, h := Built(b, pages[..n], nums[..n]), Single(b, pages[n], nums[n]);
      JoinIs(b, g, h);
      if g.pages != [] && h.pages != [] {
        AfterIs(b, g);
        MeasuresJoin(b, g.content, g.end, h.content, h.end);
      }
    }
  }

  lemma SingleMeasures(b: Book, p: nat, num: int)
    requires GoodBook(b)
    ensures Measures(b, Single(b, p, num).content, Single(b, p, num).end)
  {
    hide *;
    MeasuresNothing(b);
    if Blank(b, p) {
      BlankIs(b, p, num);
    } else {
      SingleIs(b, p, num);
      KindsStart(b, p);
      PageMeasures(b, p, |Kinds(b, p)|);
    }
  }
}
