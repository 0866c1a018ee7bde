/**
 * Span coverage survives the merge: a section's spans stay apart and in order, and cover those of the sections
 * it holds (internal/merge/continue.go:18-34, 550-563, sections.go:432-443).
 */
module Coverage {
  import opened Lists
  import opened Sections
  import opened Forest
  import opened Lead
  import opened Renumber
  import opened Fold
  import opened Incremental
  import opened LeftOpen
  import opened Document
  import opened Grafting
  import opened SpanSets

  /** Every section of the forest has clean spans, and covers its sub-sections'; outer covers the first ones. */
  ghost predicate Nests(t: seq<Section>, f: Forest, outer: seq<Span>)
    decreases f, 0
  {
    f == [] || (ItemNests(t, f[0], outer) && Nests(t, f[1..], outer))
  }

  ghost predicate ItemNests(t: seq<Section>, x: Item, outer: seq<Span>)
    decreases x, 1
  {
    x.L? || (x.i < |t| && Clean(Spans(t[x.i])) && Covers(outer, Spans(t[x.i])) && Nests(t, x.kids, Spans(t[x.i])))
  }

  /** The whole array: its root too, within a content of that length. */
  ghost predicate Covered(t: seq<Section>, f: Forest, length: nat) {
    t != [] && Clean(Spans(t[0])) && Within(Spans(t[0]), length) && Nests(t, f, Spans(t[0]))
  }

  lemma {:induction false} NestsConcat(t: seq<Section>, f: Forest, g: Forest, outer: seq<Span>)
    ensures Nests(t, f + g, outer) <==> Nests(t, f, outer) && Nests(t, g, outer)
    decreases |f|
  {
    if f == [] {
      assert f + g == g;
    } else {
      assert (f + g)[1..] == f[1..] + g;
      NestsConcat(t, f[1..], g, outer);
    }
  }

  lemma NestsOne(t: seq<Section>, x: Item, outer: seq<Span>)
    ensures Nests(t, [x], outer) <==> ItemNests(t, x, outer)
  {
    assert [x][1..] == [];
  }

  /** A larger cover covers as well. */
  lemma {:induction false} NestsWider(t: seq<Section>, f: Forest, outer: seq<Span>, wider: seq<Span>)
    requires Nests(t, f, outer) && Covers(wider, outer)
    ensures Nests(t, f, wider)
    decreases |f|
  {
    if f != [] {
      NestsWider(t, f[1..], outer, wider);
      if f[0].S? { CoversOn(wider, outer, Spans(t[f[0].i])); }
    }
  }

  ghost predicate SameSpans(a: seq<Section>, b: seq<Section>, i: nat) {
    i < |a| ==> i < |b| && Spans(b[i]) == Spans(a[i])
  }

  lemma {:induction false} NestsFrame(a: seq<Section>, b: seq<Section>, f: Forest, outer: seq<Span>)
    requires Nests(a, f, outer)
    requires forall i :: i in Ids(f) ==> SameSpans(a, b, i)
    ensures Nests(b, f, outer)
    decreases f
  {
    if f != [] {
      assert forall i :: i in ItemIds(f[0]) || i in Ids(f[1..]) ==> i in Ids(f);
      NestsFrame(a, b, f[1..], outer);
      if f[0].S? {
        var i, kids := f[0].i, f[0].kids;
        assert forall x :: x == i || x in Ids(kids) ==> x in ItemIds(f[0]);
        assert i in ItemIds(f[0]) && f[0] == S(i, kids);
        NestsFrame(a, b, kids, Spans(a[i]));
        ItemNestsFrame(a, b, i, kids, outer);
      }
    }
  }

  lemma ItemNestsFrame(a: seq<Section>, b: seq<Section>, i: nat, kids: Forest, outer: seq<Span>)
    requires ItemNests(a, S(i, kids), outer) && SameSpans(a, b, i)
    requires i < |a| && Nests(b, kids, Spans(a[i]))
    ensures ItemNests(b, S(i, kids), outer)
  {}

  /** The table holds the part's section i's spans, shifted, where it lands. */
  ghost predicate LandsSpans(secs: seq<Section>, table: seq<Section>, sh: Shift, i: nat) {
    sh.secDrop < i < |secs| ==> RenSec(sh, i) < |table| && Spans(table[RenSec(sh, i)]) == Shifted(sh, Spans(secs[i]))
  }

  lemma ShiftedClean(sh: Shift, spans: seq<Span>)
    requires Clean(spans)
    ensures Clean(Shifted(sh, spans))
  {}

  lemma ShiftedCovers(sh: Shift, outer: seq<Span>, inner: seq<Span>)
    requires Covers(outer, inner)
    ensures Covers(Shifted(sh, outer), Shifted(sh, inner))
  {
    hide Shifted, In;
    forall q | In(q, Shifted(sh, inner)) ensures In(q, Shifted(sh, outer)) {
      InShifted(sh, q, inner);
      InShifted(sh, q, outer);
    }
  }

  /** A part's kept sections, shifted, cover as they did in the part. */
  lemma {:induction false} NestsShifted(secs: seq<Section>, table: seq<Section>, sh: Shift, f: Forest, outer: seq<Span>)
    requires Nests(secs, f, outer)
    requires forall i :: i in Ids(f) ==> sh.secDrop < i
    requires forall i: nat :: LandsSpans(secs, table, sh, i)
    ensures Nests(table, RenForest(sh, f), Shifted(sh, outer))
    decreases f
  {
    if f != [] {
      assert forall i :: i in ItemIds(f[0]) || i in Ids(f[1..]) ==> i in Ids(f);
      NestsShifted(secs, table, sh, f[1..], outer);
      if f[0].S? {
        var i, kids := f[0].i, f[0].kids;
        assert forall x :: x == i || x in Ids(kids) ==> x in ItemIds(f[0]);
        assert i in ItemIds(f[0]) && f[0] == S(i, kids);
        NestsShifted(secs, table, sh, kids, Spans(secs[i]));
        ItemNestsShifted(secs, table, sh, i, kids, outer);
      }
      FirstNestsShifted(table, sh, f, Shifted(sh, outer));
    }
  }

  lemma ItemNestsShifted(secs: seq<Section>, table: seq<Section>, sh: Shift, i: nat, kids: Forest, outer: seq<Span>)
    requires ItemNests(secs, S(i, kids), outer) && sh.secDrop < i && LandsSpans(secs, table, sh, i)
    requires i < |secs| && Nests(table, RenForest(sh, kids), Shifted(sh, Spans(secs[i])))
    ensures ItemNests(table, RenItem(sh, S(i, kids)), Shifted(sh, outer))
  {
    ShiftedClean(sh, Spans(secs[i]));
    ShiftedCovers(sh, outer, Spans(secs[i]));
  }

  lemma FirstNestsShifted(table: seq<Section>, sh: Shift, f: Forest, outer: seq<Span>)
    requires f != [] && (f[0].S? ==> ItemNests(table, RenItem(sh, f[0]), outer))
    requires Nests(table, RenForest(sh, f[1..]), outer)
    ensures Nests(table, RenForest(sh, f), outer)
  {
    assert RenForest(sh, f)[1..] == RenForest(sh, f[1..]);
  }

  // Growing along a chain.

  /** Table b is a with the shares appended to the spans of the sections of the chain, share 0 being the root's. */
  ghost predicate GrownSpans(
      a: seq<Section>, b: seq<Section>, f: Forest, open: seq<nat>, sh: Shift, shares: seq<seq<Span>>)
    requires |shares| == |open| + 1 && sh.prevEnd <= sh.start
  {
    && |a| <= |b|
    && (forall i :: i in Ids(f) && i !in open ==> SameSpans(a, b, i))
    && (forall d :: 0 <= d < |open| ==> MoreSpans(a, b, open[d], sh, shares[d + 1]))
  }

  ghost predicate MoreSpans(a: seq<Section>, b: seq<Section>, i: nat, sh: Shift, share: seq<Span>)
    requires sh.prevEnd <= sh.start
  {
    i < |a| ==> i < |b| && Spans(b[i]) == Append(sh, Spans(a[i]), share)
  }

  /** Each share is clean, and covers the next one. */
  ghost predicate Falling(shares: seq<seq<Span>>) {
    && (forall d :: 0 <= d < |shares| ==> Clean(shares[d]))
    && (forall d :: 0 <= d < |shares| - 1 ==> Covers(shares[d], shares[d + 1]))
  }

  lemma SpansAround(a: seq<Section>, b: seq<Section>, f: Forest, open: seq<nat>, sh: Shift, shares: seq<seq<Span>>)
    requires |shares| == |open| + 1 && open != [] && sh.prevEnd <= sh.start
    requires Along(f, open) && Distinct(Ids(f)) && GrownSpans(a, b, f, open, sh, shares)
    ensures var p := Spot(f, open[0]);
            && p < |f|
            && (forall i :: i in Ids(f[..p]) || i in Ids(f[p + 1..]) ==> SameSpans(a, b, i))
            && GrownSpans(a, b, f[p].kids, open[1..], sh, shares[1..]) && MoreSpans(a, b, open[0], sh, shares[1])
  {
    var p := Spot(f, open[0]);
    var kids := f[p].kids;
    Parted(f, p);
    AlongIds(kids, open[1..]);
    assert open == [open[0]] + open[1..];
    hide SameSpans, MoreSpans, Ids, Along, Distinct;
    forall i | i in Ids(f[..p]) || i in Ids(f[p + 1..]) ensures SameSpans(a, b, i) {
      assert i in Ids(f) && i !in open;
    }
    forall i | i in Ids(kids) && i !in open[1..] ensures SameSpans(a, b, i) {
      assert i in Ids(f) && i !in open;
    }
    forall d | 0 <= d < |open| - 1 ensures MoreSpans(a, b, open[1..][d], sh, shares[1..][d + 1]) {
      assert MoreSpans(a, b, open[d + 1], sh, shares[d + 2]);
    }
  }

  lemma FallingRest(shares: seq<seq<Span>>)
    requires Falling(shares) && |shares| > 1
    ensures Falling(shares[1..]) && Clean(shares[0]) && Clean(shares[1]) && Covers(shares[0], shares[1])
  {
    forall d | 0 <= d < |shares| - 2 ensures Covers(shares[1..][d], shares[1..][d + 1]) {
      assert Covers(shares[d + 1], shares[d + 2]);
    }
  }

  ghost predicate AllNest(t: seq<Section>, adds: seq<Forest>, shares: seq<seq<Span>>, sh: Shift) {
    |adds| == |shares| && forall d :: 0 <= d < |adds| ==> Nests(t, adds[d], Shifted(sh, shares[d]))
  }

  /** Without a chain only the forest's own level takes anything. */
  lemma LevelNests(
      a: seq<Section>, b: seq<Section>, f: Forest, adds: seq<Forest>, sh: Shift, shares: seq<seq<Span>>,
      outer: seq<Span>)
    requires |adds| == |shares| == 1 && sh.prevEnd <= sh.start && GrownSpans(a, b, f, [], sh, shares)
    requires Falling(shares) && Nests(a, f, outer) && AllNest(b, adds, shares, sh)
    ensures Nests(b, Graft(f, [], adds), Append(sh, outer, shares[0]))
  {
    GraftNothing(f, adds);
    NewNests(b, adds[0], sh, outer, shares[0]);
    NestsFrame(a, b, f, outer);
    OldNests(b, f, sh, outer, shares[0]);
    NestsConcat(b, f, adds[0], Append(sh, outer, shares[0]));
  }

  /**
   * Content appended along a chain, each section of it taking a share of the part's spans: what covered
   * still does, the sections of the chain cover the new content, and each the one below it.
   */
  lemma {:induction false} GraftNests(
      a: seq<Section>, b: seq<Section>, f: Forest, open: seq<nat>, adds: seq<Forest>, sh: Shift,
      shares: seq<seq<Span>>, outer: seq<Span>)
    requires |adds| == |shares| == |open| + 1 && Along(f, open) && sh.prevEnd <= sh.start
    requires Distinct(Ids(f)) && GrownSpans(a, b, f, open, sh, shares) && Falling(shares)
    requires Clean(outer) && Within(outer, sh.prevEnd) && Nests(a, f, outer) && AllNest(b, adds, shares, sh)
    ensures Nests(b, Graft(f, open, adds), Append(sh, outer, shares[0]))
    decreases |open|
  {
    hide *;
    if open == [] {
      LevelNests(a, b, f, adds, sh, shares, outer);
    } else {
      GraftIs(f, open, adds);
      var p := Spot(f, open[0]);
      var i, kids := open[0], f[p].kids;
      SplitNests(a, f, p, outer);
      SpansAround(a, b, f, open, sh, shares);
      Parted(f, p);
      FallingRest(shares);
      RestNest(b, adds, shares, sh);
      CoveredWithin(outer, Spans(a[i]), sh.prevEnd);
      GraftNests(a, b, kids, open[1..], adds[1..], sh, shares[1..], Spans(a[i]));
      AppendCovers(sh, outer, shares[0], Spans(a[i]), shares[1]);
      AppendClean(sh, Spans(a[i]), shares[1], Furthest(shares[1]));
      GraftedItem(a, b, i, Graft(kids, open[1..], adds[1..]), sh, shares[1], Append(sh, outer, shares[0]));
      Around(a, b, f[..p], f[p + 1..], S(i, Graft(kids, open[1..], adds[1..])), adds[0], sh, outer, shares[0]);
    }
  }

  /** The levels before and behind a section of the chain, and what is appended there. */
  lemma Around(
      a: seq<Section>, b: seq<Section>, front: Forest, back: Forest, x: Item, add: Forest, sh: Shift,
      outer: seq<Span>, share: seq<Span>)
    requires sh.prevEnd <= sh.start && Clean(share) && Nests(a, front, outer) && Nests(a, back, outer)
    requires forall i :: i in Ids(front) || i in Ids(back) ==> SameSpans(a, b, i)
    requires Nests(b, add, Shifted(sh, share)) && ItemNests(b, x, Append(sh, outer, share))
    ensures Nests(b, front + [x] + back + add, Append(sh, outer, share))
  {
    hide *;
    var wider := Append(sh, outer, share);
    NestsFrame(a, b, front, outer);
    NestsFrame(a, b, back, outer);
    OldNests(b, front, sh, outer, share);
    OldNests(b, back, sh, outer, share);
    NewNests(b, add, sh, outer, share);
    NestsOne(b, x, wider);
    NestsConcat(b, front, [x], wider);
    NestsConcat(b, front + [x], back, wider);
    NestsConcat(b, front + [x] + back, add, wider);
  }

  lemma GraftedItem(
      a: seq<Section>, b: seq<Section>, i: nat, kids: Forest, sh: Shift, share: seq<Span>, outer: seq<Span>)
    requires i < |a| && sh.prevEnd <= sh.start && MoreSpans(a, b, i, sh, share)
    requires var spans := Append(sh, Spans(a[i]), share);
             Clean(spans) && Covers(outer, spans) && Nests(b, kids, spans)
    ensures ItemNests(b, S(i, kids), outer)
  {}

  lemma SplitNests(t: seq<Section>, f: Forest, p: nat, outer: seq<Span>)
    requires p < |f| && f[p].S? && Nests(t, f, outer)
    ensures var x := f[p];
            && Nests(t, f[..p], outer) && Nests(t, f[p + 1..], outer) && x.i < |t| && Clean(Spans(t[x.i]))
            && Covers(outer, Spans(t[x.i])) && Nests(t, x.kids, Spans(t[x.i]))
  {
    Split(f, p);
    NestsConcat(t, f[..p], [f[p]] + f[p + 1..], outer);
    NestsConcat(t, [f[p]], f[p + 1..], outer);
    NestsOne(t, f[p], outer);
    assert f[p] == S(f[p].i, f[p].kids);
  }

  /** An end for clean spans. */
  function Furthest(spans: seq<Span>): (end: nat)
    requires Clean(spans)
    ensures Within(spans, end)
  {
    if spans == [] then 0 else End(spans[|spans| - 1])
  }

  lemma RestNest(t: seq<Section>, adds: seq<Forest>, shares: seq<seq<Span>>, sh: Shift)
    requires AllNest(t, adds, shares, sh) && |adds| > 1
    ensures Nests(t, adds[0], Shifted(sh, shares[0])) && AllNest(t, adds[1..], shares[1..], sh)
  {
    forall d | 0 <= d < |adds| - 1 ensures Nests(t, adds[1..][d], Shifted(sh, shares[1..][d])) {
      assert Nests(t, adds[d + 1], Shifted(sh, shares[d + 1]));
    }
  }

  lemma NewNests(t: seq<Section>, add: Forest, sh: Shift, outer: seq<Span>, share: seq<Span>)
    requires sh.prevEnd <= sh.start && Clean(share) && Nests(t, add, Shifted(sh, share))
    ensures Nests(t, add, Append(sh, outer, share))
  {
    AppendCoversNew(sh, outer, share, share);
    NestsWider(t, add, Shifted(sh, share), Append(sh, outer, share));
  }

  lemma OldNests(t: seq<Section>, f: Forest, sh: Shift, outer: seq<Span>, share: seq<Span>)
    requires sh.prevEnd <= sh.start && Clean(share) && Nests(t, f, outer)
    ensures Nests(t, f, Append(sh, outer, share))
  {
    AppendCoversOld(sh, outer, share, outer);
    NestsWider(t, f, outer, Append(sh, outer, share));
  }
}
