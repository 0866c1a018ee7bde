/** What spans cover, and what appending a part's spans makes of it (internal/merge/continue.go:545-563). */
module SpanSets {
  import opened Sections
  import opened Forest
  import opened Lead
  import opened Renumber

  predicate Hits(q: int, s: Span) { s.offset <= q < End(s) }

  /** Position q of the content lies in the spans. */
  ghost predicate In(q: int, spans: seq<Span>) { exists k :: 0 <= k < |spans| && Hits(q, spans[k]) }

  /** None empty, ascending, and apart. */
  predicate Clean(spans: seq<Span>) {
    && (forall k :: 0 <= k < |spans| ==> spans[k].length > 0)
    && (forall i, j :: 0 <= i < j < |spans| ==> End(spans[i]) <= spans[j].offset)
  }

  ghost predicate Covers(outer: seq<Span>, inner: seq<Span>) { forall q :: In(q, inner) ==> In(q, outer) }

  /** Appended to out, the spans go on from out's last across the page separator. */
  predicate Joins(sh: Shift, out: seq<Span>, spans: seq<Span>) {
    && out != [] && spans != [] && sh.k > 0 && spans[0].offset == 0
    && End(out[|out| - 1]) == sh.prevEnd
  }

  /** out with its last span drawn out to `end`. */
  function Stretched(out: seq<Span>, end: nat): seq<Span>
    requires out != [] && out[|out| - 1].offset <= end
  {
    var last := out[|out| - 1];
    out[..|out| - 1] + [Span(last.offset, end - last.offset)]
  }

  lemma {:induction false} AppendIs(sh: Shift, out: seq<Span>, spans: seq<Span>)
    requires sh.prevEnd <= sh.start && Clean(spans) && spans != []
    ensures !Joins(sh, out, spans) ==> Append(sh, out, spans) == out + Shifted(sh, spans)
    ensures Joins(sh, out, spans) ==>
              && out[|out| - 1].offset <= End(Shifted(sh, spans)[0])
              && Append(sh, out, spans) == Stretched(out, End(Shifted(sh, spans)[0])) + Shifted(sh, spans)[1..]
    decreases |spans|
  {
    hide *;
    var n := |spans| - 1;
    ShiftedLast(sh, spans);
    AppendLast(sh, out, spans);
    if n == 0 {
      AppendFirst(sh, out, spans);
    } else {
      CleanFront(spans);
      AppendIs(sh, out, spans[..n]);
      JoinsFront(sh, out, spans);
      FrontFirst(Shifted(sh, spans[..n]), Span(spans[n].offset + sh.start, spans[n].length));
    }
  }

  lemma ShiftedLast(sh: Shift, spans: seq<Span>)
    requires spans != []
    ensures var n := |spans| - 1;
            Shifted(sh, spans) == Shifted(sh, spans[..n]) + [Span(spans[n].offset + sh.start, spans[n].length)]
  {
    hide *;
    ShiftedFront(sh, spans, spans[..|spans| - 1]);
  }

  lemma ShiftedFront(sh: Shift, spans: seq<Span>, front: seq<Span>)
    requires spans != [] && front == spans[..|spans| - 1]
    ensures Shifted(sh, spans)
             == Shifted(sh, front) + [Span(spans[|spans| - 1].offset + sh.start, spans[|spans| - 1].length)]
  {
    hide *;
    forall k | 0 <= k < |front| ensures front[k] == spans[k] {}
    ShiftedEach(sh, spans, Shifted(sh, front));
  }

  lemma ShiftedEach(sh: Shift, spans: seq<Span>, front: seq<Span>)
    requires spans != [] && |front| == |spans| - 1
    requires forall k :: 0 <= k < |front| ==> front[k] == Span(spans[k].offset + sh.start, spans[k].length)
    ensures Shifted(sh, spans) == front + [Span(spans[|front|].offset + sh.start, spans[|front|].length)]
  {
    hide *;
  }

  /** One span more: only one that starts the part's content can be joined. */
  lemma AppendLast(sh: Shift, out: seq<Span>, spans: seq<Span>)
    requires sh.prevEnd <= sh.start && spans != []
    ensures var n := |spans| - 1;
            spans[n].offset > 0 ==>
              Append(sh, out, spans)
                  == Append(sh, out, spans[..n]) + [Span(spans[n].offset + sh.start, spans[n].length)]
  {}

  lemma AppendFirst(sh: Shift, out: seq<Span>, spans: seq<Span>)
    requires sh.prevEnd <= sh.start && |spans| == 1
    ensures var r := Shifted(sh, spans);
            && (!Joins(sh, out, spans) ==> Append(sh, out, spans) == out + r)
            && (Joins(sh, out, spans) ==>
                  out[|out| - 1].offset <= End(r[0]) && Append(sh, out, spans) == Stretched(out, End(r[0])) + r[1..])
  {
    assert spans[..0] == [];
    assert Append(sh, out, spans[..0]) == out;
    assert Shifted(sh, spans)[1..] == [];
  }

  lemma CleanFront(spans: seq<Span>)
    requires Clean(spans) && |spans| > 1
    ensures var n := |spans| - 1; Clean(spans[..n]) && spans[..n] != [] && spans[n].offset > 0
  {
    assert End(spans[0]) <= spans[|spans| - 1].offset;
  }

  lemma JoinsFront(sh: Shift, out: seq<Span>, spans: seq<Span>)
    requires |spans| > 1
    ensures Joins(sh, out, spans) <==> Joins(sh, out, spans[..|spans| - 1])
    ensures Joins(sh, out, spans) ==> out != []
  {}

  lemma FrontFirst(r: seq<Span>, s: Span)
    requires r != []
    ensures (r + [s])[0] == r[0] && (r + [s])[1..] == r[1..] + [s]
    ensures forall out: seq<Span> :: (out + r) + [s] == out + (r + [s]) && (out + r[1..]) + [s] == out + (r[1..] + [s])
  {}

  lemma InJoin(q: int, a: seq<Span>, b: seq<Span>)
    ensures In(q, a + b) <==> In(q, a) || In(q, b)
  {
    if In(q, a) {
      var k :| 0 <= k < |a| && Hits(q, a[k]);
      assert Hits(q, (a + b)[k]);
    }
    if In(q, b) {
      var k :| 0 <= k < |b| && Hits(q, b[k]);
      assert Hits(q, (a + b)[|a| + k]);
    }
  }

  lemma InOne(q: int, s: Span)
    ensures In(q, [s]) <==> Hits(q, s)
  {
    if Hits(q, s) { assert Hits(q, [s][0]); }
  }

  lemma InShifted(sh: Shift, q: int, spans: seq<Span>)
    ensures In(q, Shifted(sh, spans)) <==> In(q - sh.start, spans)
  {
    var r := Shifted(sh, spans);
    if In(q, r) {
      var k :| 0 <= k < |r| && Hits(q, r[k]);
      assert Hits(q - sh.start, spans[k]);
    }
    if In(q - sh.start, spans) {
      var k :| 0 <= k < |spans| && Hits(q - sh.start, spans[k]);
      assert Hits(q, r[k]);
    }
  }

  lemma InStretched(q: int, out: seq<Span>, end: nat)
    requires out != [] && End(out[|out| - 1]) <= end
    ensures In(q, Stretched(out, end)) <==> In(q, out) || End(out[|out| - 1]) <= q < end
  {
    var n := |out| - 1;
    assert out == out[..n] + [out[n]];
    InJoin(q, out[..n], [out[n]]);
    InOne(q, out[n]);
    var more := Span(out[n].offset, end - out[n].offset);
    InJoin(q, out[..n], [more]);
    InOne(q, more);
  }

  /** What the appended spans cover: both, and the separator when they were joined across it. */
  lemma AppendIn(sh: Shift, out: seq<Span>, spans: seq<Span>, q: int)
    requires sh.prevEnd <= sh.start && Clean(spans)
    ensures In(q, Append(sh, out, spans)) <==>
              In(q, out) || In(q - sh.start, spans) || (Joins(sh, out, spans) && sh.prevEnd <= q < sh.start)
  {
    if spans != [] {
      AppendIs(sh, out, spans);
      InShifted(sh, q, spans);
      var r := Shifted(sh, spans);
      hide Append, Shifted, In;
      if Joins(sh, out, spans) {
        assert r == [r[0]] + r[1..];
        InJoin(q, [r[0]], r[1..]);
        InOne(q, r[0]);
        InJoin(q, Stretched(out, End(r[0])), r[1..]);
        assert r[0].offset == sh.start;
        InStretched(q, out, End(r[0]));
      } else {
        InJoin(q, out, r);
      }
    }
  }

  /**
   * Written out: the separator is covered exactly when the part's first span starts its content and the last one
   * before it ends where the part before ends.
   */
  lemma AppendReaches(sh: Shift, out: seq<Span>, spans: seq<Span>, q: int)
    requires sh.prevEnd <= sh.start && Clean(spans)
    ensures In(q, Append(sh, out, spans)) <==>
              || In(q, out)
              || In(q - sh.start, spans)
              || (sh.k > 0 && out != [] && spans != [] && spans[0].offset == 0
                  && End(out[|out| - 1]) == sh.prevEnd && sh.prevEnd <= q < sh.start)
  {
    hide Append, In, Clean;
    AppendIn(sh, out, spans, q);
  }

  lemma AppendClean(sh: Shift, out: seq<Span>, spans: seq<Span>, end: nat)
    requires sh.prevEnd <= sh.start && Clean(out) && Clean(spans) && Within(out, sh.prevEnd) && Within(spans, end)
    ensures Clean(Append(sh, out, spans)) && Within(Append(sh, out, spans), sh.start + end)
  {
    hide *;
    if spans == [] {
      AppendNothing(sh, out, spans, end);
    } else {
      AppendIs(sh, out, spans);
      var r := Shifted(sh, spans);
      ShiftedBounds(sh, out, spans, end);
      if Joins(sh, out, spans) {
        StretchedClean(out, r, sh.start + end);
      } else {
        CleanJoin(out, r, sh.start + end);
      }
    }
  }

  lemma AppendNothing(sh: Shift, out: seq<Span>, spans: seq<Span>, end: nat)
    requires sh.prevEnd <= sh.start && spans == [] && Within(out, sh.prevEnd)
    ensures Append(sh, out, spans) == out && Within(out, sh.start + end)
  {}

  lemma ShiftedBounds(sh: Shift, out: seq<Span>, spans: seq<Span>, end: nat)
    requires sh.prevEnd <= sh.start && Clean(spans) && spans != [] && Within(spans, end) && Within(out, sh.prevEnd)
    ensures var r := Shifted(sh, spans);
            && r != [] && Clean(r) && Within(r, sh.start + end) && Within(out, r[0].offset)
            && (Joins(sh, out, spans) ==> out != [])
  {}

  lemma CleanJoin(a: seq<Span>, b: seq<Span>, end: nat)
    requires Clean(a) && Clean(b) && b != [] && Within(a, b[0].offset) && Within(b, end)
    ensures Clean(a + b) && Within(a + b, end)
  {
    assert forall k :: 0 <= k < |b| ==> b[0].offset <= b[k].offset;
    assert b[0].offset <= End(b[0]) <= end;
  }

  lemma StretchedClean(out: seq<Span>, r: seq<Span>, end: nat)
    requires Clean(out) && Clean(r) && out != [] && r != [] && Within(out, r[0].offset) && Within(r, end)
    ensures out[|out| - 1].offset <= End(r[0])
    ensures Clean(Stretched(out, End(r[0])) + r[1..]) && Within(Stretched(out, End(r[0])) + r[1..], end)
  {
    assert Within([out[|out| - 1]], r[0].offset);
    var s := Stretched(out, End(r[0])) + r[1..];
    var n := |out| - 1;
    forall k | 0 <= k < |s| ensures s[k].length > 0 && End(s[k]) <= end {
      if k < n { assert s[k] == out[k]; } else if k > n { assert s[k] == r[k - n]; }
    }
    forall i, j | 0 <= i < j < |s| ensures End(s[i]) <= s[j].offset {
      if j <= n { assert s[j].offset == out[j].offset; } else { assert s[j] == r[j - n]; }
      if i < n { assert s[i] == out[i]; } else if i > n { assert s[i] == r[i - n]; }
      if i < n < j { assert End(out[i]) <= r[0].offset; }
    }
  }

  // Covering.

  lemma FirstIn(spans: seq<Span>)
    requires Clean(spans) && spans != []
    ensures In(spans[0].offset, spans) && In(End(spans[|spans| - 1]) - 1, spans)
  {
    assert Hits(spans[0].offset, spans[0]);
    assert Hits(End(spans[|spans| - 1]) - 1, spans[|spans| - 1]);
  }

  /** Spans that go up to their bound: the last of them does. */
  lemma LastReaches(spans: seq<Span>, end: nat)
    requires Clean(spans) && Within(spans, end) && In(end - 1, spans)
    ensures spans != [] && End(spans[|spans| - 1]) == end
  {
    var k :| 0 <= k < |spans| && Hits(end - 1, spans[k]);
  }

  lemma FirstStarts(spans: seq<Span>)
    requires Clean(spans) && In(0, spans)
    ensures spans != [] && spans[0].offset == 0
  {
    var k :| 0 <= k < |spans| && Hits(0, spans[k]);
  }

  /** Where the inner spans are joined, so are the outer ones. */
  lemma JoinsToo(sh: Shift, out: seq<Span>, spans: seq<Span>, inner: seq<Span>, more: seq<Span>)
    requires Clean(out) && Clean(spans) && Clean(inner) && Clean(more) && Within(out, sh.prevEnd)
    requires Covers(out, inner) && Covers(spans, more) && Joins(sh, inner, more)
    ensures Joins(sh, out, spans)
  {
    FirstIn(inner);
    FirstIn(more);
    LastReaches(out, sh.prevEnd);
    FirstStarts(spans);
  }

  /** What covered still covers when both grow. */
  lemma AppendCovers(sh: Shift, out: seq<Span>, spans: seq<Span>, inner: seq<Span>, more: seq<Span>)
    requires sh.prevEnd <= sh.start
    requires Clean(out) && Clean(spans) && Clean(inner) && Clean(more) && Within(out, sh.prevEnd)
    requires Covers(out, inner) && Covers(spans, more)
    ensures Covers(Append(sh, out, spans), Append(sh, inner, more))
  {
    if Joins(sh, inner, more) { JoinsToo(sh, out, spans, inner, more); }
    hide Append, In, Joins;
    forall q | In(q, Append(sh, inner, more)) ensures In(q, Append(sh, out, spans)) {
      AppendIn(sh, inner, more, q);
      AppendIn(sh, out, spans, q);
    }
  }

  lemma AppendCoversNew(sh: Shift, out: seq<Span>, spans: seq<Span>, inner: seq<Span>)
    requires sh.prevEnd <= sh.start && Clean(spans) && Covers(spans, inner)
    ensures Covers(Append(sh, out, spans), Shifted(sh, inner))
  {
    hide Append, In, Joins, Shifted;
    forall q | In(q, Shifted(sh, inner)) ensures In(q, Append(sh, out, spans)) {
      InShifted(sh, q, inner);
      AppendIn(sh, out, spans, q);
    }
  }

  lemma AppendCoversOld(sh: Shift, out: seq<Span>, spans: seq<Span>, inner: seq<Span>)
    requires sh.prevEnd <= sh.start && Clean(spans) && Covers(out, inner)
    ensures Covers(Append(sh, out, spans), inner)
  {
    hide Append, In, Joins;
    forall q | In(q, inner) ensures In(q, Append(sh, out, spans)) { AppendIn(sh, out, spans, q); }
  }

  /** Covered spans lie no further than those that cover them. */
  lemma CoveredWithin(outer: seq<Span>, inner: seq<Span>, end: nat)
    requires Covers(outer, inner) && Clean(inner) && Within(outer, end)
    ensures Within(inner, end)
  {
    forall k | 0 <= k < |inner| ensures End(inner[k]) <= end {
      assert Hits(End(inner[k]) - 1, inner[k]);
      assert In(End(inner[k]) - 1, inner);
      var j :| 0 <= j < |outer| && Hits(End(inner[k]) - 1, outer[j]);
    }
  }

  lemma CoversOn(a: seq<Span>, b: seq<Span>, c: seq<Span>)
    requires Covers(a, b) && Covers(b, c)
    ensures Covers(a, c)
  {}

  /** No span of a ends past the last of b. */
  ghost predicate EndBy(a: seq<Span>, b: seq<Span>) {
    forall k :: 0 <= k < |a| ==> b != [] && End(a[k]) <= End(b[|b| - 1])
  }

  /** Clipped spans are clean, and the spans they were clipped from cover them. */
  lemma {:induction false} ClipCovered(spans: seq<Span>, lo: int, hi: int)
    requires Clean(spans)
    ensures Clean(Clip(spans, lo, hi)) && Covers(spans, Clip(spans, lo, hi)) && EndBy(Clip(spans, lo, hi), spans)
    decreases |spans|
  {
    hide *;
    if spans == [] {
      ClipNothing(lo, hi);
    } else {
      var n := |spans| - 1;
      var rest := Clip(spans[..n], lo, hi);
      CleanLess(spans);
      ClipCovered(spans[..n], lo, hi);
      ClipLast(spans, lo, hi);
      assert spans == spans[..n] + [spans[n]];
      ClipMore(spans[..n], spans[n], rest, Max(spans[n].offset, lo), Min(End(spans[n]), hi));
    }
  }

  lemma ClipNothing(lo: int, hi: int)
    ensures Clip([], lo, hi) == [] && Clean([]) && Covers([], []) && EndBy([], [])
  {}

  lemma CleanLess(spans: seq<Span>)
    requires Clean(spans) && spans != []
    ensures var n := |spans| - 1;
            && Clean(spans[..n]) && spans[n].offset <= End(spans[n])
            && (spans[..n] != [] ==> End(spans[..n][|spans[..n]| - 1]) <= spans[n].offset)
  {}

  lemma ClipLast(spans: seq<Span>, lo: int, hi: int)
    requires spans != []
    ensures var n := |spans| - 1;
            var a, b := Max(spans[n].offset, lo), Min(End(spans[n]), hi);
            && spans[n].offset <= a && b <= End(spans[n]) && 0 <= a
            && Clip(spans, lo, hi) == Clip(spans[..n], lo, hi) + if a < b then [Span(a, b - a)] else []
  {}

  lemma ClipMore(front: seq<Span>, s: Span, rest: seq<Span>, a: int, b: int)
    requires Clean(rest) && Covers(front, rest) && s.offset <= a && 0 <= a && b <= End(s)
    requires EndBy(rest, front)
    requires front != [] ==> End(front[|front| - 1]) <= s.offset
    ensures var r := rest + if a < b then [Span(a, b - a)] else [];
            && Clean(r) && Covers(front + [s], r) && EndBy(r, front + [s])
  {
    var last := if a < b then [Span(a, b - a)] else [];
    assert Clean(rest + last);
    forall q | In(q, rest + last) ensures In(q, front + [s]) {
      InJoin(q, rest, last);
      InJoin(q, front, [s]);
      InOne(q, s);
      if a < b { InOne(q, Span(a, b - a)); }
    }
  }
}
