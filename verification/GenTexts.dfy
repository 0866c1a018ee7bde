/**
 * What a generated result says of itself is so (internal/docgen/docgen.go:132-253): every paragraph's span cuts its own
 * text out of the content, tables and figures name paragraphs of their kinds, and every fourth page is blank if the
 * generator is told so.
 */
module GenTexts {
  import opened Sections
  import opened Renumber
  import opened TextUnits
  import opened Generate
  import opened GenJoin
  import opened GenProper
  import R = References

  /** The content's steps under the span are those of the text. */
  predicate StandsAt(b: Book, content: Text, s: Span, text: Text) {
    var all := Steps(b.unit, b.cut, content);
    End(s) <= |all| && all[s.offset..End(s)] == Steps(b.unit, b.cut, text)
  }

  ghost predicate AllStand(b: Book, m: Model) {
    forall k :: 0 <= k < |m.paras| ==> StandsAt(b, m.content, m.paras[k].span, m.paras[k].text)
  }

  lemma BothSteps(b: Book, s: Text, n: nat, t: Text)
    requires GoodBook(b) && Measures(b, s, n)
    ensures var a, f := Steps(b.unit, b.cut, s), Steps(b.unit, b.cut, [LF]);
            && |a| == n && |f| == Sep(b)
            && Steps(b.unit, b.cut, s + [LF] + t) == a + f + Steps(b.unit, b.cut, t)
            && Steps(b.unit, b.cut, s + [LF] + t) == a + (f + Steps(b.unit, b.cut, t))
  {
    assert b.unit == TextElements ==> Segments(b.cut) && !EndsWith(s, CR);
    hide Steps, Segments;
    StepsJoin(b.unit, b.cut, s, [LF], t);
  }

  /** Two texts with a line feed between: what stood in them still does. */
  lemma StandsBoth(b: Book, s: Text, n: nat, t: Text)
    requires GoodBook(b) && Measures(b, s, n)
    ensures forall x: Span, text: Text :: StandsAt(b, s, x, text) ==> StandsAt(b, s + [LF] + t, x, text)
    ensures forall x: Span, text: Text :: StandsAt(b, t, x, text) ==>
              StandsAt(b, s + [LF] + t, Span(x.offset + (n + Sep(b)), x.length), text)
  {
    hide *;
    var a, c := Steps(b.unit, b.cut, s), Steps(b.unit, b.cut, t);
    var f := Steps(b.unit, b.cut, [LF]);
    BothSteps(b, s, n, t);
    forall x: Span, text: Text | StandsAt(b, s, x, text) ensures StandsAt(b, s + [LF] + t, x, text) {
      StandsBefore(b, s, s + [LF] + t, f + c, x, text);
    }
    forall x: Span, text: Text | StandsAt(b, t, x, text)
      ensures StandsAt(b, s + [LF] + t, Span(x.offset + (n + Sep(b)), x.length), text)
    {
      StandsBehind(b, t, s + [LF] + t, a + f, x, text);
    }
  }

  lemma StandsBefore(b: Book, s: Text, whole: Text, rest: seq<Text>, x: Span, text: Text)
    requires Steps(b.unit, b.cut, whole) == Steps(b.unit, b.cut, s) + rest && StandsAt(b, s, x, text)
    ensures StandsAt(b, whole, x, text)
  {
    hide Steps;
    var a, all := Steps(b.unit, b.cut, s), Steps(b.unit, b.cut, whole);
    assert all[..|a|] == a;
    R.SameSlice(all, a, |a|, x.offset, End(x));
  }

  lemma StandsBehind(b: Book, t: Text, whole: Text, front: seq<Text>, x: Span, text: Text)
    requires Steps(b.unit, b.cut, whole) == front + Steps(b.unit, b.cut, t) && StandsAt(b, t, x, text)
    ensures StandsAt(b, whole, Span(x.offset + |front|, x.length), text)
  {
    hide Steps;
    var all := Steps(b.unit, b.cut, whole);
    assert all[|front|..|all|] == Steps(b.unit, b.cut, t);
    R.Slices(all, |front|, |all|, x.offset, End(x));
  }

  lemma StandsAlone(b: Book, text: Text)
    ensures StandsAt(b, text, Span(0, Length(b, text)), text)
  {
    var all := Steps(b.unit, b.cut, text);
    assert all[0..|all|] == all;
  }

  /** A page's paragraphs stand where their offsets say. */
  lemma {:induction false} PageStands(b: Book, p: nat, n: nat, j: nat)
    requires GoodBook(b) && j < n
    ensures StandsAt(b, PageText(b, p, n), Span(Off(b, p, j), Length(b, b.text(p, j))), b.text(p, j))
    decreases n
  {
    hide *;
    PageTextIs(b, p, n);
    OffStart(b, p);
    var last := b.text(p, n - 1);
    StandsAlone(b, last);
    if n > 1 {
      PageMeasures(b, p, n - 1);
      StandsBoth(b, PageText(b, p, n - 1), PageEnd(b, p, n - 1), last);
      if j < n - 1 {
        PageStands(b, p, n - 1, j);
      } else {
        PageEndIs(b, p, n - 1);
        OffNext(b, p, n - 2);
        var x := Span(0, Length(b, last));
        assert Span(x.offset + (PageEnd(b, p, n - 1) + Sep(b)), x.length) == Span(Off(b, p, j), Length(b, last));
      }
    }
  }

  lemma SingleStands(b: Book, p: nat, num: int)
    requires GoodBook(b)
    ensures AllStand(b, Single(b, p, num))
  {
    if Blank(b, p) {
      BlankIs(b, p, num);
    } else {
      SingleIs(b, p, num);
      var n := |Kinds(b, p)|;
      hide Kinds, PageText, PageEnd, Single, StandsAt, Off, Length, Segments, Steps;
      forall k | 0 <= k < n
        ensures StandsAt(b, PageText(b, p, n), PageParas(b, p, num)[k].span, PageParas(b, p, num)[k].text)
      {
        ParaIs(b, p, num, k);
        PageStands(b, p, n, k);
      }
    }
  }

  lemma MovedAt(sh: Shift, paras: seq<Para>, k: nat)
    requires k < |paras|
    ensures |MovedParas(sh, paras)| == |paras|
    ensures MovedParas(sh, paras)[k]
      == paras[k].(span := Span(paras[k].span.offset + sh.start, paras[k].span.length))
  {}

  lemma StandsIn(b: Book, m: Model, k: nat)
    requires AllStand(b, m) && k < |m.paras|
    ensures StandsAt(b, m.content, m.paras[k].span, m.paras[k].text)
  {
    hide StandsAt;
  }

  lemma JoinStands(b: Book, g: Model, h: Model)
    requires GoodBook(b) && Measures(b, g.content, g.end) && AllStand(b, g) && AllStand(b, h)
    ensures AllStand(b, Join(b, g, h))
  {
    hide *;
    JoinIs(b, g, h);
    if g.pages != [] && h.pages != [] {
      AfterIs(b, g);
      StandsBoth(b, g.content, g.end, h.content);
      var m, sh := Join(b, g, h), AfterModel(b, g);
      ListSizes(sh, h);
      forall k | 0 <= k < |m.paras| ensures StandsAt(b, m.content, m.paras[k].span, m.paras[k].text) {
        if k < |g.paras| {
          StandsIn(b, g, k);
          assert m.paras[k] == g.paras[k];
        } else {
          StandsIn(b, h, k - |g.paras|);
          MovedAt(sh, h.paras, k - |g.paras|);
          assert m.paras[k] == MovedParas(sh, h.paras)[k - |g.paras|];
        }
      }
      AllFrom(b, m);
    }
  }

  lemma NothingStands(b: Book)
    ensures AllStand(b, NONE)
  {}

  /** Every paragraph of a generated result is where its span says. */
  lemma {:induction false} BuiltStands(b: Book, pages: seq<nat>, nums: seq<int>)
    requires GoodBook(b) && |nums| == |pages|
    ensures var m := Built(b, pages, nums);
            forall k :: 0 <= k < |m.paras| ==> StandsAt(b, m.content, m.paras[k].span, m.paras[k].text)
    decreases |pages|
  {
    hide *;
    if pages == [] {
      assert nums == [];
      BuiltNone(b);
      NothingStands(b);
    } else {
      var n := |pages| - 1;
      BuiltLast(b, pages, nums);
      BuiltStands(b, pages[..n], nums[..n]);
      BuiltMeasures(b, pages[..n], nums[..n]);
      SingleStands(b, pages[n], nums[n]);
      AllFrom(b, Built(b, pages[..n], nums[..n]));
      JoinStands(b, Built(b, pages[..n], nums[..n]), Single(b, pages[n], nums[n]));
    }
    AllFrom(b, Built(b, pages, nums));
  }

  lemma AllFrom(b: Book, m: Model)
    ensures AllStand(b, m) <==>
              forall k :: 0 <= k < |m.paras| ==> StandsAt(b, m.content, m.paras[k].span, m.paras[k].text)
  {}

  // Tables and figures.

  predicate KindAt(m: Model, n: nat, k: Kind, page: int) {
    n < |m.paras| && m.paras[n].kind == k && m.paras[n].page == page
  }

  predicate TableRight(m: Model, t: Table) {
    && KindAt(m, t.first, Cell, t.page) && KindAt(m, t.first + 1, Cell, t.page)
    && t.span.offset == m.paras[t.first].span.offset
    && (t.caption.Some? ==> KindAt(m, t.caption.value, TableCaption, t.page))
  }

  predicate FigureRight(m: Model, f: Figure) {
    && KindAt(m, f.text, FigureText, f.page) && f.span == m.paras[f.text].span
    && (f.caption.Some? ==> KindAt(m, f.caption.value, FigureCaption, f.page))
  }

  ghost predicate AllRight(m: Model) {
    && (forall k :: 0 <= k < |m.tables| ==> TableRight(m, m.tables[k]))
    && (forall k :: 0 <= k < |m.figures| ==> FigureRight(m, m.figures[k]))
  }

  lemma SecondCell(b: Book, p: nat)
    ensures var c := First(Kinds(b, p), Cell);
            c.Some? ==> c.value + 1 < |Kinds(b, p)| && Kinds(b, p)[c.value + 1] == Cell
  {
    var tail := FigureKinds(b, p) + Foot(b, p);
    KindsAre(b, p);
    FrontPlain(b, p);
    FirstAfter(Front(b, p), TableKinds(b, p) + tail, Cell);
    CellsTogether(b, p);
    hide Kinds, Front, FigureKinds, Foot;
    if p % 3 == 0 {
      FirstZero(TableKinds(b, p) + tail, Cell);
      assert Kinds(b, p)[|Front(b, p)| + 1] == (TableKinds(b, p) + tail)[1] == TableKinds(b, p)[1];
    }
  }

  lemma TablesRight(m: Model, kinds: seq<Kind>, num: int)
    requires |m.paras| == |kinds| && forall k :: 0 <= k < |kinds| ==> KindAt(m, k, kinds[k], num)
    requires var c := First(kinds, Cell); c.Some? ==> c.value + 1 < |kinds| && kinds[c.value + 1] == Cell
    ensures forall t :: t in TablesOf(m.paras, kinds, num) ==> TableRight(m, t)
  {
    hide First;
  }

  lemma FiguresRight(m: Model, kinds: seq<Kind>, num: int)
    requires |m.paras| == |kinds| && forall k :: 0 <= k < |kinds| ==> KindAt(m, k, kinds[k], num)
    ensures forall f :: f in FiguresOf(m.paras, kinds, num) ==> FigureRight(m, f)
  {
    hide First;
  }

  lemma RightFrom(m: Model)
    requires (forall t :: t in m.tables ==> TableRight(m, t)) && (forall f :: f in m.figures ==> FigureRight(m, f))
    ensures AllRight(m)
  {
    hide TableRight, FigureRight;
  }

  lemma KindIs(m: Model, k: nat, kind: Kind, num: int, text: Text, span: Span)
    requires k < |m.paras| && m.paras[k] == Para(kind, text, span, num)
    ensures KindAt(m, k, kind, num)
  {}

  lemma SingleRight(b: Book, p: nat, num: int)
    ensures AllRight(Single(b, p, num))
  {
    hide *;
    var m, kinds := Single(b, p, num), Kinds(b, p);
    if Blank(b, p) {
      BlankIs(b, p, num);
    } else {
      SingleIs(b, p, num);
      SecondCell(b, p);
      forall k | 0 <= k < |kinds| ensures KindAt(m, k, kinds[k], num) {
        ParaIs(b, p, num, k);
        KindIs(m, k, kinds[k], num, b.text(p, k), Span(Off(b, p, k), Length(b, b.text(p, k))));
      }
      TablesRight(m, kinds, num);
      FiguresRight(m, kinds, num);
    }
    RightFrom(m);
  }

  lemma TableMoved(g: Model, h: Model, m: Model, sh: Shift, t: Table)
    requires m.paras == g.paras + MovedParas(sh, h.paras) && sh.ptr.paragraphs == |g.paras| && TableRight(h, t)
    ensures TableRight(m, MoveTable(sh, t))
  {
    hide MovedParas;
    forall n: nat, k: Kind, page: int | KindAt(h, n, k, page) ensures KindAt(m, |g.paras| + n, k, page) {
      MovedAt(sh, h.paras, n);
    }
    MovedAt(sh, h.paras, t.first);
  }

  lemma FigureMoved(g: Model, h: Model, m: Model, sh: Shift, f: Figure)
    requires m.paras == g.paras + MovedParas(sh, h.paras) && sh.ptr.paragraphs == |g.paras| && FigureRight(h, f)
    ensures FigureRight(m, MoveFigure(sh, f))
  {
    hide MovedParas;
    forall n: nat, k: Kind, page: int | KindAt(h, n, k, page) ensures KindAt(m, |g.paras| + n, k, page) {
      MovedAt(sh, h.paras, n);
    }
    MovedAt(sh, h.paras, f.text);
  }

  lemma JoinRight(b: Book, g: Model, h: Model)
    requires AllRight(g) && AllRight(h)
    ensures AllRight(Join(b, g, h))
  {
    JoinIs(b, g, h);
    if g.pages != [] && h.pages != [] {
      AfterIs(b, g);
      var m, sh := Join(b, g, h), AfterModel(b, g);
      hide Join, AfterModel, MovedParas, MoveTable, MoveFigure;
      forall k | 0 <= k < |m.tables| ensures TableRight(m, m.tables[k]) {
        if k < |g.tables| {
          assert m.tables[k] == g.tables[k] && TableRight(g, g.tables[k]);
        } else {
          assert m.tables[k] == MoveTable(sh, h.tables[k - |g.tables|]);
          TableMoved(g, h, m, sh, h.tables[k - |g.tables|]);
        }
      }
      forall k | 0 <= k < |m.figures| ensures FigureRight(m, m.figures[k]) {
        if k < |g.figures| {
          assert m.figures[k] == g.figures[k] && FigureRight(g, g.figures[k]);
        } else {
          assert m.figures[k] == MoveFigure(sh, h.figures[k - |g.figures|]);
          FigureMoved(g, h, m, sh, h.figures[k - |g.figures|]);
        }
      }
    }
  }

  /** Every table's cells and caption, and every figure's text and caption, are paragraphs of that kind on its page. */
  lemma {:induction false} BuiltRight(b: Book, pages: seq<nat>, nums: seq<int>)
    requires |nums| == |pages|
    ensures AllRight(Built(b, pages, nums))
    decreases |pages|
  {
    hide *;
    if pages == [] {
      assert nums == [];
      BuiltNone(b);
      NothingRight();
    } else {
      var n := |pages| - 1;
      BuiltLast(b, pages, nums);
      BuiltRight(b, pages[..n], nums[..n]);
      SingleRight(b, pages[n], nums[n]);
      JoinRight(b, Built(b, pages[..n], nums[..n]), Single(b, pages[n], nums[n]));
    }
  }

  lemma NothingRight()
    ensures AllRight(NONE)
  {}

  /** Blank pages are the multiples of blankEvery, if that is set: they hold nothing, and the others three or more. */
  lemma BlankPages(b: Book, p: nat, num: int)
    ensures var m := Single(b, p, num);
            && |m.pages| == 1 && m.pages[0].num == num
            && (if b.blankEvery > 0 && p / b.blankEvery * b.blankEvery == p then
                  m.paras == [] && m.secs == [] && m.content == []
                else |m.paras| >= 3 && |m.secs| == 1)
  {
    hide *;
    BlankWhen(b, p);
    if Blank(b, p) {
      BlankIs(b, p, num);
    } else {
      SingleIs(b, p, num);
      ThreeKinds(b, p);
    }
  }

  lemma BlankWhen(b: Book, p: nat)
    ensures Blank(b, p) <==> b.blankEvery > 0 && p / b.blankEvery * b.blankEvery == p
  {
    if b.blankEvery > 0 { Multiples(p, b.blankEvery); }
  }

  lemma Multiples(p: nat, k: nat)
    requires k > 0
    ensures p % k == 0 <==> p / k * k == p
  {
    var d := p / k;
    assert p == d * k + p % k;
  }

  lemma ThreeKinds(b: Book, p: nat)
    ensures |Kinds(b, p)| >= 3
  {}
}
