/**
 * What a part's leading content is, and where it goes (internal/merge/continue.go:97-105, 286-490), said of the part
 * itself: which parts move whole, open with a run or with a chain, what positions a run reaches, and what each open
 * section and the root take.
 */
module LeadLaws {
  import opened Lists
  import opened Sections
  import opened Lead
  import opened Renumber
  import opened Fold
  import opened Incremental
  import opened SpanSets

  // What a run reaches.

  /** s is a span of the item e names. */
  predicate ItemSpan(p: Part, e: Elem, s: Span) { e.Leaf? && e.n < Count(p, e.m) && s in Items(p, e.m)[e.n] }

  ghost predicate AnySpan(p: Part, ptrs: seq<Elem>, s: Span) {
    exists k :: 0 <= k < |ptrs| && ItemSpan(p, ptrs[k], s)
  }

  /** s is a span of an item that one of the root's first n elements names. */
  ghost predicate RunSpan(p: Part, n: nat, s: Span) {
    exists k :: 0 <= k < n && k < |RootElems(p)| && ItemSpan(p, RootElems(p)[k], s)
  }

  /**
   * lo is the least offset and hi the greatest end of the spans of the items named, and of some more; without any
   * both are -1.
   */
  ghost predicate Bounded(lo: int, hi: int, p: Part, ptrs: seq<Elem>, more: seq<Span>) {
    if lo < 0 then lo == hi == -1 && more == [] && forall s :: !AnySpan(p, ptrs, s)
    else
      && (forall s :: AnySpan(p, ptrs, s) || s in more ==> lo <= s.offset && End(s) <= hi)
      && (exists s :: (AnySpan(p, ptrs, s) || s in more) && s.offset == lo)
      && (exists s :: (AnySpan(p, ptrs, s) || s in more) && End(s) == hi)
  }

  lemma {:induction false} WidenBounds(lo: int, hi: int, p: Part, ptrs: seq<Elem>, spans: seq<Span>)
    requires Bounded(lo, hi, p, ptrs, [])
    ensures Bounded(Widen(lo, hi, spans).0, Widen(lo, hi, spans).1, p, ptrs, spans)
    decreases |spans|
  {
    if spans != [] {
      var n := |spans| - 1;
      WidenBounds(lo, hi, p, ptrs, spans[..n]);
      var e := Widen(lo, hi, spans[..n]);
      hide AnySpan, Widen;
      WidenLast(lo, hi, spans);
      assert spans == spans[..n] + [spans[n]];
      BoundedMore(e.0, e.1, p, ptrs, spans[..n], spans[n]);
    }
  }

  lemma WidenLast(lo: int, hi: int, spans: seq<Span>)
    requires spans != []
    ensures var n := |spans| - 1;
            var e := Widen(lo, hi, spans[..n]);
            Widen(lo, hi, spans)
              == (if e.0 < 0 || spans[n].offset < e.0 then spans[n].offset else e.0, Max(e.1, End(spans[n])))
  {}

  lemma BoundedMore(lo: int, hi: int, p: Part, ptrs: seq<Elem>, spans: seq<Span>, x: Span)
    requires Bounded(lo, hi, p, ptrs, spans)
    ensures Bounded(if lo < 0 || x.offset < lo then x.offset else lo, Max(hi, End(x)), p, ptrs, spans + [x])
  {
    hide AnySpan;
    assert x in spans + [x];
    if lo >= 0 {
      var a :| (AnySpan(p, ptrs, a) || a in spans) && a.offset == lo;
      var b :| (AnySpan(p, ptrs, b) || b in spans) && End(b) == hi;
      assert AnySpan(p, ptrs, a) || a in spans + [x];
      assert AnySpan(p, ptrs, b) || b in spans + [x];
    }
  }

  lemma ExtentLast(p: Part, ptrs: seq<Elem>)
    requires ptrs != [] && forall k :: 0 <= k < |ptrs| ==> ptrs[k].Leaf? && ptrs[k].n < Count(p, ptrs[k].m)
    ensures var x, e := ptrs[|ptrs| - 1], Extent(p, ptrs[..|ptrs| - 1]);
            Extent(p, ptrs) == Widen(e.0, e.1, Items(p, x.m)[x.n])
  {}

  lemma AnySplit(p: Part, ptrs: seq<Elem>)
    requires ptrs != [] && ptrs[|ptrs| - 1].Leaf? && ptrs[|ptrs| - 1].n < Count(p, ptrs[|ptrs| - 1].m)
    ensures var x := ptrs[|ptrs| - 1];
            forall s :: AnySpan(p, ptrs, s) <==> AnySpan(p, ptrs[..|ptrs| - 1], s) || s in Items(p, x.m)[x.n]
  {
    var x := ptrs[|ptrs| - 1];
    forall s ensures AnySpan(p, ptrs, s) <==> AnySpan(p, ptrs[..|ptrs| - 1], s) || s in Items(p, x.m)[x.n] {
      hide AnySpan;
      AnyLast(p, ptrs, s);
    }
  }

  lemma BoundedSame(lo: int, hi: int, p: Part, ptrs: seq<Elem>)
    requires ptrs != [] && ptrs[|ptrs| - 1].Leaf? && ptrs[|ptrs| - 1].n < Count(p, ptrs[|ptrs| - 1].m)
    requires var x := ptrs[|ptrs| - 1]; Bounded(lo, hi, p, ptrs[..|ptrs| - 1], Items(p, x.m)[x.n])
    ensures Bounded(lo, hi, p, ptrs, [])
  {
    var n, x := |ptrs| - 1, ptrs[|ptrs| - 1];
    var more := Items(p, x.m)[x.n];
    hide AnySpan, Items, Count, ItemSpan;
    AnySplit(p, ptrs);
    if lo >= 0 {
      var a :| (AnySpan(p, ptrs[..n], a) || a in more) && a.offset == lo;
      var b :| (AnySpan(p, ptrs[..n], b) || b in more) && End(b) == hi;
      assert AnySpan(p, ptrs, a) && AnySpan(p, ptrs, b);
    } else {
      forall s ensures !AnySpan(p, ptrs, s) {}
    }
  }

  lemma {:induction false} ExtentBounds(p: Part, ptrs: seq<Elem>)
    requires forall k :: 0 <= k < |ptrs| ==> ptrs[k].Leaf? && ptrs[k].n < Count(p, ptrs[k].m)
    ensures Bounded(Extent(p, ptrs).0, Extent(p, ptrs).1, p, ptrs, [])
    decreases |ptrs|
  {
    if ptrs != [] {
      var n := |ptrs| - 1;
      var x := ptrs[n];
      ExtentBounds(p, ptrs[..n]);
      var e := Extent(p, ptrs[..n]);
      WidenBounds(e.0, e.1, p, ptrs[..n], Items(p, x.m)[x.n]);
      ExtentLast(p, ptrs);
      hide Bounded, Extent, Widen;
      BoundedSame(Extent(p, ptrs).0, Extent(p, ptrs).1, p, ptrs);
    }
  }

  lemma AnyLast(p: Part, ptrs: seq<Elem>, s: Span)
    requires ptrs != []
    ensures var n := |ptrs| - 1; AnySpan(p, ptrs, s) <==> AnySpan(p, ptrs[..n], s) || ItemSpan(p, ptrs[n], s)
  {
    var n := |ptrs| - 1;
    if AnySpan(p, ptrs[..n], s) {
      var k :| 0 <= k < n && ItemSpan(p, ptrs[..n][k], s);
      assert ItemSpan(p, ptrs[k], s);
    }
    if k :| 0 <= k < |ptrs| && ItemSpan(p, ptrs[k], s) && k < n {
      assert ItemSpan(p, ptrs[..n][k], s);
    }
  }

  lemma {:induction false} ClipIn(spans: seq<Span>, lo: int, hi: int, q: int)
    ensures In(q, Clip(spans, lo, hi)) <==> In(q, spans) && lo <= q < hi
    decreases |spans|
  {
    if spans != [] {
      var n := |spans| - 1;
      ClipIn(spans[..n], lo, hi, q);
      hide In, Clip;
      ClipLast(spans, lo, hi);
      var a, b := Max(spans[n].offset, lo), Min(End(spans[n]), hi);
      var more: seq<Span> := if a < b then [Span(a, b - a)] else [];
      InJoin(q, spans[..n], [spans[n]]);
      InJoin(q, Clip(spans[..n], lo, hi), more);
      assert spans == spans[..n] + [spans[n]];
      InOne(q, spans[n]);
      if a < b { InOne(q, Span(a, b - a)); } else { InNone(q); }
    } else {
      ClipNothing(lo, hi);
      InNone(q);
    }
  }

  lemma InNone(q: int)
    ensures !In(q, [])
  {}

  /** A position of the root's spans from the run's first item's start on, before its last one's end. */
  ghost predicate RunHas(p: Part, n: nat, q: int) {
    && In(q, RootSpans(p))
    && (exists s :: RunSpan(p, n, s) && s.offset <= q)
    && (exists s :: RunSpan(p, n, s) && q < End(s))
  }

  /** The root opens with n leaves that are no headings, up to a section or a heading, and has a section. */
  ghost predicate OpensWithRun(p: Part, n: nat) {
    var elems := RootElems(p);
    && 0 < n < |elems| && (forall k :: 0 <= k < n ==> elems[k].Leaf? && !IsHeading(p, elems[k]))
    && (elems[n].Sec? || IsHeading(p, elems[n]))
    && exists k :: 0 <= k < |elems| && elems[k].Sec?
  }

  ghost predicate RunNamed(p: Part, n: nat) {
    forall k :: 0 <= k < n && k < |RootElems(p)| && RootElems(p)[k].Leaf? ==>
        RootElems(p)[k].n < Count(p, RootElems(p)[k].m)
  }

  lemma RunLengthIs(p: Part, n: nat)
    requires n < |RootElems(p)| && (RootElems(p)[n].Sec? || IsHeading(p, RootElems(p)[n]))
    requires forall k :: 0 <= k < n ==> RootElems(p)[k].Leaf? && !IsHeading(p, RootElems(p)[k])
    ensures RunLength(p, RootElems(p), 0) == n
  {
    hide RunLength;
  }

  lemma RunPrefix(p: Part, n: nat, s: Span)
    requires n <= |RootElems(p)|
    ensures AnySpan(p, RootElems(p)[..n], s) <==> RunSpan(p, n, s)
  {
    if RunSpan(p, n, s) {
      var k :| 0 <= k < n && k < |RootElems(p)| && ItemSpan(p, RootElems(p)[k], s);
      assert ItemSpan(p, RootElems(p)[..n][k], s);
    }
  }

  /** With the least offset and the greatest end at hand. */
  lemma RunHasIs(p: Part, n: nat, lo: int, hi: int, q: int)
    requires forall s :: RunSpan(p, n, s) ==> lo <= s.offset && End(s) <= hi
    requires (exists s :: RunSpan(p, n, s) && s.offset == lo) && (exists s :: RunSpan(p, n, s) && End(s) == hi)
    ensures RunHas(p, n, q) <==> In(q, RootSpans(p)) && lo <= q < hi
  {
    hide RunSpan, In;
    var a :| RunSpan(p, n, a) && a.offset == lo;
    var b :| RunSpan(p, n, b) && End(b) == hi;
  }

  lemma BoundsOfRun(p: Part, n: nat, lo: int, hi: int)
    requires n <= |RootElems(p)| && Bounded(lo, hi, p, RootElems(p)[..n], [])
    ensures lo < 0 ==> forall s :: !RunSpan(p, n, s)
    ensures lo >= 0 ==>
              && (forall s :: RunSpan(p, n, s) ==> lo <= s.offset && End(s) <= hi)
              && (exists s :: RunSpan(p, n, s) && s.offset == lo) && (exists s :: RunSpan(p, n, s) && End(s) == hi)
  {
    var ptrs := RootElems(p)[..n];
    forall s ensures AnySpan(p, ptrs, s) <==> RunSpan(p, n, s) { RunPrefix(p, n, s); }
    hide AnySpan, RunSpan;
    if lo >= 0 {
      var a :| (AnySpan(p, ptrs, a) || a in []) && a.offset == lo;
      var b :| (AnySpan(p, ptrs, b) || b in []) && End(b) == hi;
      assert RunSpan(p, n, a) && RunSpan(p, n, b);
    }
  }

  lemma NoneHas(p: Part, n: nat, q: int)
    requires forall s :: !RunSpan(p, n, s)
    ensures !RunHas(p, n, q)
  {
    hide RunSpan;
  }

  /** Where the items of the run start and end, and the root's spans between. */
  lemma RunClip(p: Part, n: nat) returns (lo: int, hi: int)
    requires n <= |RootElems(p)|
    requires forall k :: 0 <= k < n ==> RootElems(p)[k].Leaf? && RootElems(p)[k].n < Count(p, RootElems(p)[k].m)
    ensures (lo, hi) == Extent(p, RootElems(p)[..n])
    ensures lo < 0 ==> forall q :: !RunHas(p, n, q)
    ensures lo >= 0 ==> forall q :: In(q, Clip(RootSpans(p), lo, hi)) <==> RunHas(p, n, q)
  {
    hide *;
    var ptrs := RootElems(p)[..n];
    ExtentBounds(p, ptrs);
    var e := Extent(p, ptrs);
    lo, hi := e.0, e.1;
    BoundsOfRun(p, n, lo, hi);
    if lo < 0 {
      forall q ensures !RunHas(p, n, q) { NoneHas(p, n, q); }
    } else {
      forall q ensures In(q, Clip(RootSpans(p), lo, hi)) <==> RunHas(p, n, q) {
        RunHasIs(p, n, lo, hi, q);
        ClipIn(RootSpans(p), lo, hi, q);
      }
    }
  }

  lemma SomeIn(spans: seq<Span>, lo: int, hi: int)
    ensures Clip(spans, lo, hi) != [] <==> exists q :: In(q, Clip(spans, lo, hi))
  {
    var r := Clip(spans, lo, hi);
    if r != [] {
      ClipProper(spans, lo, hi);
      assert Hits(r[0].offset, r[0]);
      assert In(r[0].offset, r);
    }
  }

  lemma {:induction false} ClipProper(spans: seq<Span>, lo: int, hi: int)
    ensures forall k :: 0 <= k < |Clip(spans, lo, hi)| ==> Clip(spans, lo, hi)[k].length > 0
    decreases |spans|
  {
    if spans != [] { ClipProper(spans[..|spans| - 1], lo, hi); }
  }

  /** What the root's opening elements, m of them, come to. */
  lemma RunOfIs(p: Part)
    ensures var elems, m := RootElems(p), RunLength(p, RootElems(p), 0);
            && m <= |elems|
            && ((forall k :: m <= k < |elems| ==> elems[k].Leaf?) ==> RunOf(p) == Ok(Apart))
            && (!(forall k :: m <= k < |elems| ==> elems[k].Leaf?) ==>
                  if exists k :: 0 <= k < m && elems[k].n >= Count(p, elems[k].m) then RunOf(p).Refused?
                  else
                    var (lo, hi) := Extent(p, elems[..m]);
                    RunOf(p) == if lo < 0 || Clip(RootSpans(p), lo, hi) == [] then Ok(Apart)
                                else Ok(Run(m, Clip(RootSpans(p), lo, hi))))
  {
    hide Extent, Clip, RunLength, IsHeading, Count;
  }

  lemma ShapeIsRun(p: Part, k: nat, depth: nat)
    requires |p.sections| > 1 && k > 0 && depth > 0 && RootElems(p) != [] && RootElems(p)[0].Leaf?
    ensures ShapeOf(p, k, depth) == if IsHeading(p, RootElems(p)[0]) then Ok(Apart) else RunOf(p)
  {
    hide RunOf, IsHeading;
  }

  lemma RunAt(p: Part, n: nat)
    requires RootElems(p) != [] && !IsHeading(p, RootElems(p)[0]) && RootElems(p)[0].Leaf?
    ensures OpensWithRun(p, n) <==>
              && n == RunLength(p, RootElems(p), 0) && n <= |RootElems(p)|
              && exists k :: n <= k < |RootElems(p)| && RootElems(p)[k].Sec?
  {
    var elems, m := RootElems(p), RunLength(p, RootElems(p), 0);
    if OpensWithRun(p, n) {
      RunLengthIs(p, n);
      var j :| 0 <= j < |elems| && elems[j].Sec?;
      assert j >= n;
    }
  }

  /**
   * A part behind one that left sections open continues them with a run exactly when its root opens with items that
   * are no headings, goes on to a section, and has spans over those items; it is refused if one of the items is
   * missing. The run is all of them, and reaches exactly the root's positions from where the first of its items
   * starts to where the last one ends.
   */
  lemma RunExactly(p: Part, k: nat, depth: nat, n: nat)
    requires |p.sections| > 1 && k > 0 && depth > 0 && RootElems(p) != [] && RootElems(p)[0].Leaf?
    ensures OpensWithRun(p, n) && !RunNamed(p, n) ==> ShapeOf(p, k, depth).Refused?
    ensures (ShapeOf(p, k, depth).Ok? && ShapeOf(p, k, depth).value.Run? && ShapeOf(p, k, depth).value.n == n)
      <==> OpensWithRun(p, n) && RunNamed(p, n) && exists q :: RunHas(p, n, q)
    ensures ShapeOf(p, k, depth).Ok? && ShapeOf(p, k, depth).value.Run? && ShapeOf(p, k, depth).value.n == n ==>
              forall q :: In(q, ShapeOf(p, k, depth).value.spans) <==> RunHas(p, n, q)
  {
    hide ShapeOf, RunOf, Extent, Clip, RunHas, In, IsHeading, OpensWithRun;
    ShapeIsRun(p, k, depth);
    if IsHeading(p, RootElems(p)[0]) {
      NoRun(p, n);
    } else {
      RunOfIs(p);
      RunAt(p, n);
      if n == RunLength(p, RootElems(p), 0) && RunNamed(p, n) {
        var lo, hi := RunClip(p, n);
        SomeIn(RootSpans(p), lo, hi);
      }
    }
  }

  lemma NoRun(p: Part, n: nat)
    requires RootElems(p) != [] && IsHeading(p, RootElems(p)[0])
    ensures !OpensWithRun(p, n)
  {}

  /**
   * So a run's spans reach no item beside it: none that lies wholly before or wholly behind its items.
   */
  lemma RunApart(p: Part, k: nat, depth: nat, e: Elem, q: int)
    requires |p.sections| > 1 && k > 0 && depth > 0 && RootElems(p) != [] && RootElems(p)[0].Leaf?
    requires ShapeOf(p, k, depth).Ok? && ShapeOf(p, k, depth).value.Run?
    requires var n := ShapeOf(p, k, depth).value.n;
             || (forall s, x :: RunSpan(p, n, s) && ItemSpan(p, e, x) ==> End(s) <= x.offset)
             || (forall s, x :: RunSpan(p, n, s) && ItemSpan(p, e, x) ==> End(x) <= s.offset)
    requires exists x :: ItemSpan(p, e, x) && x.offset <= q < End(x)
    ensures !In(q, ShapeOf(p, k, depth).value.spans)
  {
    hide ShapeOf, RunSpan, ItemSpan, OpensWithRun, In;
    RunExactly(p, k, depth, ShapeOf(p, k, depth).value.n);
    var x :| ItemSpan(p, e, x) && x.offset <= q < End(x);
  }

  // The other shapes.

  /** A part without a section but its root moves whole when its root holds items only, the first no heading. */
  lemma MovedExactly(p: Part, k: nat, depth: nat)
    requires p.sections != []
    ensures ShapeOf(p, k, depth) == Ok(Moved) <==>
              && |p.sections| == 1 && k > 0 && depth > 0 && RootElems(p) != []
              && (forall j :: 0 <= j < |RootElems(p)| ==> RootElems(p)[j].Leaf?)
              && !(RootElems(p)[0].m == Paragraphs && RootElems(p)[0].n in p.heads)
  {
    hide RunOf, ChainFrom;
  }

  /** Section i can be folded: it carries elements and spans, and opens with what is no heading. */
  predicate Untitled(p: Part, i: nat) {
    && i < |p.sections| && p.sections[i].elements.Some? && p.sections[i].spans.Some? && Elems(p.sections[i]) != []
    && !IsHeading(p, Elems(p.sections[i])[0])
    && forall s :: s in Spans(p.sections[i]) ==> s.offset + s.length <= p.length
  }

  /** Section i opens with section i + 1. */
  predicate Wraps(p: Part, i: nat) {
    i < |p.sections| && Elems(p.sections[i]) != [] && Elems(p.sections[i])[0] == Sec(i + 1)
  }

  /**
   * The sections from i to n are untitled, each but the last the wrapper of the next; the last opens with an item
   * if there is content, and else is the wrapper of a section of its own, with a heading.
   */
  predicate Chained(p: Part, i: nat, n: nat, content: bool) {
    && (forall j :: i <= j <= n ==> Untitled(p, j))
    && (forall j :: i <= j < n ==> Wraps(p, j))
    && (content ==> n < |p.sections| && Elems(p.sections[n]) != [] && Elems(p.sections[n])[0].Leaf?)
    && (!content ==>
          && Wraps(p, n) && n + 1 < |p.sections| && Extensible(p.sections[n + 1]) && Elems(p.sections[n + 1]) != []
          && IsHeading(p, Elems(p.sections[n + 1])[0]))
  }

  /** Section i is one of its own: it carries elements and spans, and opens with a heading. */
  predicate Headed(p: Part, i: nat) {
    && i < |p.sections| && Extensible(p.sections[i]) && Elems(p.sections[i]) != []
    && IsHeading(p, Elems(p.sections[i])[0])
  }

  lemma ChainStep(p: Part, i: nat, depth: nat)
    requires 1 <= i <= depth + 1
    ensures var r := ChainFrom(p, i, depth);
            && (Headed(p, i) ==> r == Ok(if i == 1 then Apart else Chain(i - 1, false)))
            && (!Headed(p, i) && i > depth ==> r == Ok(Apart))
            && (!Headed(p, i) && i <= depth && !Untitled(p, i) ==> r.Refused? || r == Ok(Apart))
            && (i <= depth && Untitled(p, i) && Elems(p.sections[i])[0].Leaf? ==> r == Ok(Chain(i, true)))
            && (i <= depth && Untitled(p, i) && Elems(p.sections[i])[0].Sec? && !Wraps(p, i) ==> r == Ok(Apart))
            && (i <= depth && Untitled(p, i) && Wraps(p, i) ==> r == ChainFrom(p, i + 1, depth))
    ensures !(Headed(p, i) && Untitled(p, i))
  {
    if i < |p.sections| { FitsOrSpills(Spans(p.sections[i]), p.length); }
    hide Within, IsHeading;
  }

  lemma ChainedIs(p: Part, i: nat, n: nat, content: bool)
    requires i <= n
    ensures Chained(p, i, n, content) ==> Untitled(p, i)
    ensures i < n ==> (Chained(p, i, n, content) <==> Untitled(p, i) && Wraps(p, i) && Chained(p, i + 1, n, content))
    ensures i == n && Untitled(p, i) ==>
              (Chained(p, i, i, content) <==>
                if content then Elems(p.sections[i])[0].Leaf? else Wraps(p, i) && Headed(p, i + 1))
  {
    hide Within, IsHeading;
    if i < n && Untitled(p, i) && Wraps(p, i) && Chained(p, i + 1, n, content) {
      forall j | i <= j <= n ensures Untitled(p, j) { if j > i { assert i + 1 <= j; } }
      forall j | i <= j < n ensures Wraps(p, j) { if j > i { assert i + 1 <= j; } }
    }
  }

  lemma WrapsNot(p: Part, i: nat)
    requires Untitled(p, i)
    ensures Wraps(p, i) ==> Elems(p.sections[i])[0].Sec?
  {}

  lemma {:induction false} ChainFromExactly(p: Part, i: nat, depth: nat, n: nat, content: bool)
    requires 1 <= i <= depth && i <= n
    ensures ChainFrom(p, i, depth) == Ok(Chain(n, content)) <==> n <= depth && Chained(p, i, n, content)
    decreases |p.sections| - i
  {
    hide ChainFrom, Chained, Headed, Wraps;
    ChainStep(p, i, depth);
    ChainStep(p, i + 1, depth);
    ChainedIs(p, i, n, content);
    if Untitled(p, i) {
      WrapsNot(p, i);
      if i < depth && i < n {
        ChainFromExactly(p, i + 1, depth, n, content);
      } else if i < depth && Wraps(p, i) {
        NotBefore(p, i + 1, depth, content);
      }
    }
  }

  /** A chain found from section i on ends at i - 1 only if section i is one of its own. */
  lemma NotBefore(p: Part, i: nat, depth: nat, content: bool)
    requires 1 < i <= depth
    ensures ChainFrom(p, i, depth) == Ok(Chain(i - 1, content)) <==> !content && Headed(p, i)
  {
    hide Within, IsHeading;
    if Untitled(p, i) && Wraps(p, i) { NeverBelow(p, i + 1, depth); }
  }

  lemma NeverBelow(p: Part, i: nat, depth: nat)
    requires 1 <= i <= depth + 1
    ensures ChainFrom(p, i, depth).Ok? && ChainFrom(p, i, depth).value.Chain? ==>
              ChainFrom(p, i, depth).value.n >= i - 1
  {}

  /**
   * A part behind one that left `depth` sections open continues them with a chain exactly when its root opens with
   * section 1 and sections 1 to n are chained, no deeper than the open ones.
   */
  lemma ChainExactly(p: Part, k: nat, depth: nat, n: nat, content: bool)
    requires p.sections != [] && n >= 1
    ensures ShapeOf(p, k, depth) == Ok(Chain(n, content)) <==>
              && |p.sections| > 1 && k > 0 && depth > 0 && RootElems(p) != [] && RootElems(p)[0] == Sec(1)
              && n <= depth && Chained(p, 1, n, content)
  {
    hide Chained, ChainFrom;
    if depth > 0 { ChainFromExactly(p, 1, depth, n, content); }
  }

  /** Section i is untitled but for its spans, one of which reaches past the part's content. */
  predicate Spills(p: Part, i: nat) {
    && i < |p.sections| && p.sections[i].elements.Some? && p.sections[i].spans.Some? && Elems(p.sections[i]) != []
    && !IsHeading(p, Elems(p.sections[i])[0])
    && exists s :: s in Spans(p.sections[i]) && s.offset + s.length > p.length
  }

  /** The sections from i on are untitled, each the wrapper of the next, until section n spills. */
  predicate ChainSpills(p: Part, i: nat, n: nat) {
    Spills(p, n) && forall j :: i <= j < n ==> Untitled(p, j) && Wraps(p, j)
  }

  lemma SpillStep(p: Part, i: nat, depth: nat)
    requires 1 <= i <= depth
    ensures Spills(p, i) ==> !Untitled(p, i) && ChainFrom(p, i, depth).Refused?
    ensures !Untitled(p, i) && !Spills(p, i) ==> ChainFrom(p, i, depth).Ok?
    ensures Untitled(p, i) && !Wraps(p, i) ==> ChainFrom(p, i, depth).Ok?
  {
    hide IsHeading;
    if i < |p.sections| && Extensible(p.sections[i]) { FitsOrSpills(Spans(p.sections[i]), p.length); }
  }

  lemma FitsOrSpills(spans: seq<Span>, length: nat)
    ensures Within(spans, length) <==> forall s :: s in spans ==> s.offset + s.length <= length
  {}

  lemma {:induction false} ChainRefused(p: Part, i: nat, depth: nat)
    requires 1 <= i <= depth + 1
    ensures ChainFrom(p, i, depth).Refused? <==> exists n :: i <= n <= depth && ChainSpills(p, i, n)
    decreases depth + 1 - i
  {
    hide ChainFrom, Untitled, Spills, Wraps, Headed, ChainSpills;
    ChainStep(p, i, depth);
    if i > depth {
    } else if Untitled(p, i) {
      SpillStep(p, i, depth);
      if Wraps(p, i) {
        WrapsNot(p, i);
        var next := i + 1;
        ChainRefused(p, next, depth);
        forall n | next <= n <= depth && ChainSpills(p, next, n) ensures ChainSpills(p, i, n) { SpillsOn(p, i, n); }
        forall n | i <= n <= depth ensures ChainSpills(p, i, n) <==> n > i && ChainSpills(p, i + 1, n) {
          SpillsOn(p, i, n);
          assert n == i ==> !Spills(p, i);
        }
      } else {
        forall n | i <= n <= depth ensures !ChainSpills(p, i, n) {
          SpillsOn(p, i, n);
          assert !Spills(p, i);
        }
      }
    } else {
      SpillStep(p, i, depth);
      forall n | i <= n <= depth ensures ChainSpills(p, i, n) <==> n == i && Spills(p, i) { SpillsOn(p, i, n); }
      if Spills(p, i) { assert ChainSpills(p, i, i); }
    }
  }

  lemma SpillsOn(p: Part, i: nat, n: nat)
    requires i <= n
    ensures ChainSpills(p, i, n) <==>
              if n == i then Spills(p, i) else Untitled(p, i) && Wraps(p, i) && ChainSpills(p, i + 1, n)
  {
    hide Untitled, Spills, Wraps;
    if n > i && Untitled(p, i) && Wraps(p, i) && ChainSpills(p, i + 1, n) {
      forall j | i <= j < n ensures Untitled(p, j) && Wraps(p, j) { if j > i { assert i + 1 <= j; } }
    }
  }

  lemma ShapeIsOther(p: Part, k: nat, depth: nat)
    requires p.sections != []
    requires |p.sections| == 1 || k == 0 || depth == 0 || RootElems(p) == [] || RootElems(p)[0].Sec?
    ensures ShapeOf(p, k, depth).Refused? <==>
              && |p.sections| > 1 && k > 0 && depth > 0 && RootElems(p) != [] && RootElems(p)[0] == Sec(1)
              && ChainFrom(p, 1, depth).Refused?
  {
    hide ChainFrom, RunOf;
  }

  lemma {:induction false} RunRefused(p: Part)
    requires RootElems(p) != [] && !IsHeading(p, RootElems(p)[0]) && RootElems(p)[0].Leaf?
    ensures RunOf(p).Refused? <==> exists n :: OpensWithRun(p, n) && !RunNamed(p, n)
  {
    hide RunOf, Extent, Clip, IsHeading, OpensWithRun;
    RunOfIs(p);
    var m := RunLength(p, RootElems(p), 0);
    RunAt(p, m);
    forall n: nat | OpensWithRun(p, n) ensures n == m { RunAt(p, n); }
  }

  /**
   * The plan refuses a part exactly when it would continue the open sections but the items of its run are not all
   * there, or a section of its chain has spans that reach past its content.
   */
  lemma RefusedExactly(p: Part, k: nat, depth: nat)
    requires p.sections != []
    ensures ShapeOf(p, k, depth).Refused? <==>
              && |p.sections| > 1 && k > 0 && depth > 0 && RootElems(p) != []
              && ((exists n :: OpensWithRun(p, n) && !RunNamed(p, n))
                  || (RootElems(p)[0] == Sec(1) && exists n :: 1 <= n <= depth && ChainSpills(p, 1, n)))
  {
    if |p.sections| == 1 || k == 0 || depth == 0 || RootElems(p) == [] || RootElems(p)[0].Sec? {
      ShapeIsOther(p, k, depth);
      ChainRefused(p, 1, depth);
      hide ShapeOf, ChainFrom, ChainSpills, IsHeading;
    } else {
      ShapeIsRun(p, k, depth);
      hide ShapeOf, RunOf, IsHeading, ChainSpills, RunNamed;
      if IsHeading(p, RootElems(p)[0]) {
        forall n: nat ensures !OpensWithRun(p, n) { NoRun(p, n); }
      } else {
        RunRefused(p);
      }
    }
  }

  // Where it goes.

  /** What the section at depth d of the open path becomes, the root being at depth 0. */
  lemma GrownTo(t: seq<Section>, open: seq<nat>, p: Part, s: Shape, sh: Shift, d: nat)
    requires sh.prevEnd <= sh.start && p.sections != [] && t != [] && Distinct(open) && d < |open|
    requires 0 < open[d] < |t| && Extensible(t[open[d]])
    ensures var r := AddPart(t, open, p, s, sh)[open[d]];
            && Elems(r) == Elems(t[open[d]]) + RenElems(sh, ShareElems(p, s, |open|, d + 1))
            && Spans(r) == Append(sh, Spans(t[open[d]]), ShareSpans(p, s, d + 1))
  {
    hide Append, ShareElems, ShareSpans, RenElems, Distinct;
    FindsAt(open, d);
    assert AddPart(t, open, p, s, sh)[open[d]] == GrowAt(t, open, p, s, sh, open[d]);
  }

  lemma RootGrownTo(t: seq<Section>, open: seq<nat>, p: Part, s: Shape, sh: Shift)
    requires sh.prevEnd <= sh.start && p.sections != [] && t != []
    ensures Elems(AddPart(t, open, p, s, sh)[0]) == Elems(t[0]) + RenElems(sh, ShareElems(p, s, |open|, 0))
  {
    hide Append, RenElems;
    AddedRoot(t, open, p, s, sh);
    if p.sections[0].elements.None? { NoElems(sh, Elems(t[0])); }
  }

  lemma NoElems(sh: Shift, es: seq<Elem>)
    ensures RenElems(sh, []) == [] && es + [] == es
  {}

  ghost predicate OpenAll(t: seq<Section>, open: seq<nat>) {
    Distinct(open) && forall d :: 0 <= d < |open| ==> 0 < open[d] < |t| && Extensible(t[open[d]])
  }

  /** What an open section has before and after, and what it took. */
  ghost predicate Takes(
      t: seq<Section>, r: seq<Section>, i: nat, sh: Shift, elems: seq<Elem>, spans: seq<Span>)
    requires sh.prevEnd <= sh.start && i < |t| && i < |r|
  {
    Elems(r[i]) == Elems(t[i]) + RenElems(sh, elems) && Spans(r[i]) == Append(sh, Spans(t[i]), spans)
  }

  /**
   * A run goes to the deepest open section, whose spans and those of the sections above it grow by the run's; the
   * root keeps the elements behind it. A part that moves whole goes there entirely, and leaves the root none.
   */
  lemma RunGoes(t: seq<Section>, open: seq<nat>, p: Part, s: Shape, sh: Shift, d: nat)
    requires sh.prevEnd <= sh.start && p.sections != [] && t != [] && OpenAll(t, open) && d < |open|
    requires s.Moved? || (s.Run? && s.n <= |RootElems(p)|)
    ensures var r, n := AddPart(t, open, p, s, sh), if s.Moved? then |RootElems(p)| else s.n;
            && Elems(r[0]) == Elems(t[0]) + RenElems(sh, RootElems(p)[n..])
            && Takes(t, r, open[d], sh, if d == |open| - 1 then RootElems(p)[..n] else [],
                     if s.Moved? then RootSpans(p) else s.spans)
  {
    hide AddPart, Append, RenElems, Extensible, Distinct;
    GrownTo(t, open, p, s, sh, d);
    RootGrownTo(t, open, p, s, sh);
    if s.Moved? { assert RootElems(p)[|RootElems(p)|..] == [] && RootElems(p)[..|RootElems(p)|] == RootElems(p); }
  }

  /**
   * A chain's sections are folded into the open ones at their own depths, each without its pointer to the next; but
   * if the last of them opens with content it goes to the deepest open section, its spans to all from its own depth
   * down. The root loses its pointer to the first.
   */
  lemma ChainGoes(t: seq<Section>, open: seq<nat>, p: Part, n: nat, content: bool, sh: Shift, d: nat)
    requires sh.prevEnd <= sh.start && t != [] && OpenAll(t, open) && d < |open|
    requires RootElems(p) != [] && 1 <= n <= |open| && Chained(p, 1, n, content)
    ensures n < |p.sections| && forall j :: 1 <= j <= n ==> j < |p.sections| && Elems(p.sections[j]) != []
    ensures var r, j := AddPart(t, open, p, Chain(n, content), sh), d + 1;
            && Elems(r[0]) == Elems(t[0]) + RenElems(sh, RootElems(p)[1..])
            && (j < n ==> Takes(t, r, open[d], sh, Elems(p.sections[j])[1..], Spans(p.sections[j])))
            && (j >= n && content ==>
                  Takes(t, r, open[d], sh, if j == |open| then Elems(p.sections[n]) else [], Spans(p.sections[n])))
            && (j == n && !content ==> Takes(t, r, open[d], sh, Elems(p.sections[n]), Spans(p.sections[n])))
            && (j > n && !content ==> Takes(t, r, open[d], sh, [], []))
  {
    forall j | 1 <= j <= n ensures j < |p.sections| && Elems(p.sections[j]) != [] { assert Untitled(p, j); }
    hide AddPart, Append, RenElems, Extensible, Distinct, Chained;
    GrownTo(t, open, p, Chain(n, content), sh, d);
    RootGrownTo(t, open, p, Chain(n, content), sh);
  }

  /** The positions an open section covers once a run was folded into it or below it. */
  lemma RunReaches(t: seq<Section>, open: seq<nat>, p: Part, k: nat, s: Shape, sh: Shift, d: nat, q: int)
    requires sh.prevEnd <= sh.start && t != [] && OpenAll(t, open) && d < |open|
    requires |p.sections| > 1 && RootElems(p) != [] && RootElems(p)[0].Leaf? && Clean(RootSpans(p))
    requires ShapeOf(p, k, |open|) == Ok(s) && s.Run?
    ensures var was, now := Spans(t[open[d]]), Spans(AddPart(t, open, p, s, sh)[open[d]]);
            In(q, now) <==>
              || In(q, was) || RunHas(p, s.n, q - sh.start)
              || (was != [] && sh.k > 0 && RunHas(p, s.n, 0)
                  && End(was[|was| - 1]) == sh.prevEnd && sh.prevEnd <= q < sh.start)
  {
    hide *;
    RunIsClean(p, k, |open|);
    RunExactly(p, k, |open|, s.n);
    OpenAt(t, open, d);
    GrownTo(t, open, p, s, sh, d);
    RunShare(p, s, d + 1);
    AppendIn(sh, Spans(t[open[d]]), s.spans, q);
    JoinsWhen(sh, Spans(t[open[d]]), s.spans);
    FirstAtStart(s.spans);
  }

  lemma RunShare(p: Part, s: Shape, d: nat)
    requires s.Run?
    ensures ShareSpans(p, s, d) == s.spans
  {}

  lemma JoinsWhen(sh: Shift, out: seq<Span>, spans: seq<Span>)
    ensures Joins(sh, out, spans) <==>
              out != [] && sh.k > 0 && End(out[|out| - 1]) == sh.prevEnd && spans != [] && spans[0].offset == 0
  {}

  lemma OpenAt(t: seq<Section>, open: seq<nat>, d: nat)
    requires OpenAll(t, open) && d < |open|
    ensures Distinct(open) && 0 < open[d] < |t| && Extensible(t[open[d]])
  {}

  lemma RunIsClean(p: Part, k: nat, depth: nat)
    requires p.sections != [] && Clean(RootSpans(p)) && ShapeOf(p, k, depth).Ok? && ShapeOf(p, k, depth).value.Run?
    ensures k > 0 && Clean(ShapeOf(p, k, depth).value.spans)
  {
    var e := Extent(p, RootElems(p)[..RunLength(p, RootElems(p), 0)]);
    ClipCovered(RootSpans(p), e.0, e.1);
  }

  /** Clean spans start at the content's first position exactly when they cover it. */
  lemma FirstAtStart(spans: seq<Span>)
    requires Clean(spans)
    ensures In(0, spans) <==> spans != [] && spans[0].offset == 0
  {
    if spans != [] && spans[0].offset == 0 { assert Hits(0, spans[0]); }
  }
}
