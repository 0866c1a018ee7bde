/**
 * The generated root's spans, grown part by part as the merge grows them (internal/docgen/docgen.go:295-309,
 * internal/merge/continue.go:545-563): joined exactly where only a separator lies between.
 */
module GenRuns {
  import opened Sections
  import opened Forest
  import opened Lead
  import opened Renumber
  import opened SpanSets
  import opened Generate

  /** One after another, a separator at least between two. */
  predicate Spread(spans: seq<Span>, sep: nat) {
    forall i, j :: 0 <= i < j < |spans| ==> End(spans[i]) + sep <= spans[j].offset
  }

  lemma RunsLast(spans: seq<Span>, sep: nat)
    requires spans != []
    ensures var n := |spans| - 1;
            Runs(spans, sep) == RunGrown(Runs(spans[..n], sep), spans[n], sep)
  {}

  lemma GrownIs(runs: seq<Span>, s: Span, sep: nat)
    ensures runs != [] && End(runs[|runs| - 1]) + sep == s.offset ==>
              && runs[|runs| - 1].offset <= End(s)
              && RunGrown(runs, s, sep)
                 == runs[..|runs| - 1] + [Span(runs[|runs| - 1].offset, End(s) - runs[|runs| - 1].offset)]
    ensures !(runs != [] && End(runs[|runs| - 1]) + sep == s.offset) ==> RunGrown(runs, s, sep) == runs + [s]
    ensures RunGrown(runs, s, sep) != [] && End(RunGrown(runs, s, sep)[|RunGrown(runs, s, sep)| - 1]) == End(s)
  {}

  /** The runs end where the last span does. */
  lemma RunsEnd(spans: seq<Span>, sep: nat)
    requires spans != []
    ensures Runs(spans, sep) != []
    ensures End(Runs(spans, sep)[|Runs(spans, sep)| - 1]) == End(spans[|spans| - 1])
  {
    hide *;
    RunsLast(spans, sep);
    GrownIs(Runs(spans[..|spans| - 1], sep), spans[|spans| - 1], sep);
  }

  lemma AppendMore(sh: Shift, out: seq<Span>, front: seq<Span>, s: Span)
    requires sh.prevEnd <= sh.start
    ensures var before, t := Append(sh, out, front), Span(s.offset + sh.start, s.length);
            var joins := before != [] && sh.k > 0 && t.offset == sh.start && End(before[|before| - 1]) == sh.prevEnd;
            && (joins ==> before[|before| - 1].offset <= End(t)
                          && (Append(sh, out, front + [s])
                              == before[..|before| - 1]
                                  + [Span(before[|before| - 1].offset, End(t) - before[|before| - 1].offset)]))
            && (!joins ==> Append(sh, out, front + [s]) == before + [t])
  {
    assert (front + [s])[..|front|] == front;
  }

  lemma AppendEnd(sh: Shift, out: seq<Span>, front: seq<Span>, s: Span)
    requires sh.prevEnd <= sh.start
    ensures var r := Append(sh, out, front + [s]); r != [] && End(r[|r| - 1]) == End(s) + sh.start
  {
    hide *;
    EndIs(s);
    AppendMore(sh, out, front, s);
    var before := Append(sh, out, front);
    EndIs(Span(s.offset + sh.start, s.length));
    if before != [] && End(Span(s.offset + sh.start, s.length)) >= before[|before| - 1].offset {
      EndIs(Span(before[|before| - 1].offset, End(Span(s.offset + sh.start, s.length)) - before[|before| - 1].offset));
    }
  }

  lemma EndIs(s: Span)
    ensures End(s) == s.offset + s.length
  {}

  /** A span more, appended before or after. */
  lemma GrownThere(sh: Shift, out: seq<Span>, front: seq<Span>, last: Span, s: Span, sep: nat)
    requires sh.prevEnd <= sh.start && s.offset > 0
    ensures Append(sh, out, RunGrown(front + [last], s, sep))
         == RunGrown(Append(sh, out, front + [last]), Span(s.offset + sh.start, s.length), sep)
  {
    hide *;
    var runs, t := front + [last], Span(s.offset + sh.start, s.length);
    EndIs(s);
    EndIs(t);
    EndIs(last);
    AppendEnd(sh, out, front, last);
    GrownIs(runs, s, sep);
    GrownIs(Append(sh, out, runs), t, sep);
    AppendMore(sh, out, runs, s);
    AppendMore(sh, out, front, last);
    assert runs[..|runs| - 1] == front;
    if End(last) + sep == s.offset {
      var longer := Span(last.offset, End(s) - last.offset);
      EndIs(longer);
      EndIs(Span(longer.offset + sh.start, longer.length));
      EndIs(Span(last.offset + sh.start, last.length));
      AppendMore(sh, out, front, longer);
    }
  }

  lemma SpreadFront(spans: seq<Span>, sep: nat)
    requires Spread(spans, sep) && spans != []
    ensures Spread(spans[..|spans| - 1], sep)
    ensures |spans| > 1 && sep > 0 ==> spans[|spans| - 1].offset > 0
  {
    if |spans| > 1 { assert End(spans[0]) + sep <= spans[|spans| - 1].offset; }
  }

  lemma FirstGrown(sh: Shift, out: seq<Span>, s: Span, sep: nat)
    requires sh.start == sh.prevEnd + sep && sh.k > 0 && (out != [] ==> End(out[|out| - 1]) <= sh.prevEnd)
    ensures Append(sh, out, [s]) == RunGrown(out, Span(s.offset + sh.start, s.length), sep)
  {
    hide Append, RunGrown;
    var t := Span(s.offset + sh.start, s.length);
    AppendMore(sh, out, [], s);
    AppendNothing(sh, out);
    GrownIs(out, t, sep);
    assert [] + [s] == [s];
  }

  lemma AppendNothing(sh: Shift, out: seq<Span>)
    requires sh.prevEnd <= sh.start
    ensures Append(sh, out, []) == out
  {}

  lemma RunsNone(sep: nat)
    ensures Runs([], sep) == []
  {}

  lemma ShiftedMore(sh: Shift, spans: seq<Span>)
    requires spans != []
    ensures var n := |spans| - 1;
            Shifted(sh, spans) == Shifted(sh, spans[..n]) + [Span(spans[n].offset + sh.start, spans[n].length)]
  {
    ShiftedLast(sh, spans);
  }

  /** The runs of some spans and then of others are what the merge makes of the runs of each. */
  lemma {:induction false} RunsJoin(sh: Shift, a: seq<Span>, h: seq<Span>, sep: nat)
    requires sh.start == sh.prevEnd + sep && sh.k > 0 && sep > 0 && Spread(h, sep)
    requires a != [] ==> End(a[|a| - 1]) <= sh.prevEnd
    ensures Runs(a + Shifted(sh, h), sep) == Append(sh, Runs(a, sep), Runs(h, sep))
    decreases |h|
  {
    hide *;
    if h == [] {
      NoSpans(sh);
      assert h == [] && a + Shifted(sh, h) == a;
      RunsNone(sep);
      AppendNothing(sh, Runs(a, sep));
    } else {
      var n := |h| - 1;
      var t := Span(h[n].offset + sh.start, h[n].length);
      ShiftedMore(sh, h);
      assert (a + Shifted(sh, h))[..|a| + n] == a + Shifted(sh, h[..n]);
      RunsLast(a + Shifted(sh, h), sep);
      RunsLast(h, sep);
      SpreadFront(h, sep);
      RunsJoin(sh, a, h[..n], sep);
      if n == 0 {
        JoinFirst(sh, a, h, sep);
      } else {
        RunsEnd(h[..n], sep);
        var r := Runs(h[..n], sep);
        assert r == r[..|r| - 1] + [r[|r| - 1]];
        GrownThere(sh, Runs(a, sep), r[..|r| - 1], r[|r| - 1], h[n], sep);
      }
    }
  }

  lemma NoSpans(sh: Shift)
    ensures Shifted(sh, []) == []
  {}

  lemma JoinFirst(sh: Shift, a: seq<Span>, h: seq<Span>, sep: nat)
    requires sh.start == sh.prevEnd + sep && sh.k > 0 && |h| == 1
    requires a != [] ==> End(a[|a| - 1]) <= sh.prevEnd
    ensures RunGrown(Append(sh, Runs(a, sep), Runs(h[..0], sep)), Span(h[0].offset + sh.start, h[0].length), sep)
         == Append(sh, Runs(a, sep), RunGrown(Runs(h[..0], sep), h[0], sep))
  {
    hide *;
    assert h[..0] == [];
    RunsNone(sep);
    AppendNothing(sh, Runs(a, sep));
    GrownIs([], h[0], sep);
    assert [] + [h[0]] == [h[0]];
    if a != [] { RunsEnd(a, sep); }
    FirstGrown(sh, Runs(a, sep), h[0], sep);
  }

  /** The first part's spans are taken as they are. */
  lemma {:induction false} AppendFirstPart(sh: Shift, spans: seq<Span>)
    requires sh.k == 0 && sh.start == 0 && sh.prevEnd == 0
    ensures Append(sh, [], spans) == spans
    decreases |spans|
  {
    hide *;
    if spans == [] {
      AppendNothing(sh, []);
    } else {
      var n := |spans| - 1;
      AppendFirstPart(sh, spans[..n]);
      AppendMore(sh, [], spans[..n], spans[n]);
      assert spans == spans[..n] + [spans[n]];
    }
  }
}
