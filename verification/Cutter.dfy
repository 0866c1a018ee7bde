/** The cut as the program makes it (internal/realcut/cut.go:230-365, 367-389, 469-586). */
module Cutter {
  import opened Lists
  import opened Sections
  import opened Forest
  import opened Fold
  import opened Incremental
  import opened Cutting
  import opened CutPart
  import opened RoundTrip
  import opened CutShape
  import opened Acceptance

  /** Where an item is: its first region's page, or else where its first span starts. */
  datatype Place = Place(page: Option<nat>, offset: Option<nat>)

  /** The part a place is in: by its page, by its offset (the last that fits), or part 0; -1 off the plan. */
  function PartAt(x: Place, partOf: map<nat, nat>, a: seq<nat>, b: seq<nat>): int
    requires |a| == |b|
  {
    if x.page.Some? then (if x.page.value in partOf then partOf[x.page.value] else -1)
    else if x.offset.None? || LastFit(x.offset.value, a, b, |a|) < 0 then 0
    else LastFit(x.offset.value, a, b, |a|)
  }

  /** The last of the first n ranges that holds o, or -1. */
  function LastFit(o: nat, a: seq<nat>, b: seq<nat>, n: nat): (r: int)
    requires n <= |a| == |b|
    ensures -1 <= r < n
    decreases n
  {
    if n == 0 then -1 else if a[n - 1] <= o <= b[n - 1] then n - 1 else LastFit(o, a, b, n - 1)
  }

  /** Right where a section's content is known: it holds something of exactly these parts. */
  ghost predicate Right(row: seq<bool>, g: Forest, at: Places, parts: nat) {
    |row| == parts && forall k :: 0 <= k < parts ==> (row[k] <==> Keep(g, at, k, k + 1) != [])
  }

  lemma {:induction false} KeepConcat(f: Forest, g: Forest, at: Places, lo: int, hi: int)
    ensures Keep(f + g, at, lo, hi) == Keep(f, at, lo, hi) + Keep(g, at, lo, hi)
    decreases |f|
  {
    if f == [] {
      assert f + g == g;
    } else {
      assert (f + g)[1..] == f[1..] + g;
      KeepConcat(f[1..], g, at, lo, hi);
      hide Keep, KeepItem;
      KeepFirst(f + g, at, lo, hi);
      KeepFirst(f, at, lo, hi);
      var x, a, b := KeepItem(f[0], at, lo, hi), Keep(f[1..], at, lo, hi), Keep(g, at, lo, hi);
      if x != [] { Associate([x[0]], a, b); }
    }
  }

  /** Which parts the first n of a section's items are in, one more item counted. */
  lemma RightNext(row: seq<bool>, more: seq<bool>, g: Forest, n: nat, at: Places, parts: nat)
    requires n < |g| && Right(row, g[..n], at, parts) && |more| == parts
    requires forall k :: 0 <= k < parts ==> (more[k] <==> row[k] || KeepItem(g[n], at, k, k + 1) != [])
    ensures Right(more, g[..n + 1], at, parts)
  {
    forall k | 0 <= k < parts ensures more[k] <==> Keep(g[..n + 1], at, k, k + 1) != [] {
      assert g[..n + 1] == g[..n] + [g[n]];
      KeepConcat(g[..n], [g[n]], at, k, k + 1);
      KeepFirst([g[n]], at, k, k + 1);
    }
  }

  class Cutter {
    const sections: seq<Section>
    const parts: nat
    const a: seq<nat>
    const b: seq<nat>
    var itemPart: Places
    var itemLocal: Places
    var done: seq<bool>
    var secContains: seq<seq<bool>>
    var secLocal: seq<map<nat, nat>>

    constructor (sections: seq<Section>, a: seq<nat>, b: seq<nat>)
      requires |a| == |b|
      ensures this.sections == sections && parts == |a| && this.a == a && this.b == b
    {
      this.sections, parts, this.a, this.b := sections, |a|, a, b;
      itemPart, itemLocal := Places([], [], [], []), Places([], [], [], []);
      done, secContains, secLocal := [], [], [];
    }

    /** The part an item is in, or -2 for one on a page outside the plan. */
    method PlaceItem(x: Place, partOf: map<nat, nat>) returns (k: int)
      requires |a| == |b|
      ensures k == -2 <==> PartAt(x, partOf, a, b) == -1
      ensures k != -2 ==> k >= 0 && k == PartAt(x, partOf, a, b)
    {
      k := -1;
      if x.page.Some? {
        k := if x.page.value in partOf then partOf[x.page.value] else -2;
      } else if x.offset.Some? {
        for kk := 0 to |a|
          invariant k == LastFit(x.offset.value, a, b, kk)
        {
          if a[kk] <= x.offset.value <= b[kk] { k := kk; }
        }
      }
      if k == -1 { k := 0; }
    }

    /** The part each item of one member is in, and its place among the part's items. */
    method AssignItems(items: seq<Place>, partOf: map<nat, nat>) returns (part: seq<int>, local: seq<int>)
      requires |a| == |b|
      ensures |part| == |local| == |items|
      ensures forall i :: 0 <= i < |items| ==> part[i] == PartAt(items[i], partOf, a, b)
      ensures forall i :: 0 <= i < |items| ==>
                local[i] == if part[i] < 0 then -1 else CountOf(part, part[i], i)
    {
      hide *;
      part, local := [], [];
      var count: map<int, nat> := map[];
      NothingAssigned(items, partOf, a, b);
      for i := 0 to |items|
        invariant Assigned(part, local, items, partOf, a, b, i) && Tallied(count, part)
      {
        var k := PlaceItem(items[i], partOf);
        AssignedLength(part, local, items, partOf, a, b, i);
        TallyNext(count, part, k);
        AssignedNext(part, local, items, partOf, a, b, i, if k == -2 then -1 else k);
        if k == -2 {
          part, local := part + [-1], local + [-1];
        } else {
          var c := if k in count then count[k] else 0;
          part, local := part + [k], local + [c];
          count := count[k := c + 1];
        }
      }
      AssignedAll(part, local, items, partOf, a, b);
    }

    method AssignLeaves(
        paragraphs: seq<Place>, tables: seq<Place>, figures: seq<Place>, pairs: seq<Place>, partOf: map<nat, nat>)
      requires |a| == |b|
      modifies this`itemPart, this`itemLocal
      ensures Locals(itemPart, itemLocal)
      ensures Assigns(itemPart.paragraphs, paragraphs, partOf, a, b) && Assigns(itemPart.tables, tables, partOf, a, b)
      ensures Assigns(itemPart.figures, figures, partOf, a, b) && Assigns(itemPart.pairs, pairs, partOf, a, b)
    {
      var p0, l0 := AssignItems(paragraphs, partOf);
      var p1, l1 := AssignItems(tables, partOf);
      var p2, l2 := AssignItems(figures, partOf);
      var p3, l3 := AssignItems(pairs, partOf);
      itemPart, itemLocal := Places(p0, p1, p2, p3), Places(l0, l1, l2, l3);
    }

    ghost predicate Sized()
      reads this
    {
      |done| == |secContains| == |sections|
    }

    /** What is known of the sections visited, but for those still being visited. */
    ghost predicate Known(f: Forest, busy: set<nat>)
      reads this
    {
      && Sized()
      && forall j: nat, g: Forest ::
           j < |sections| && done[j] && j !in busy && (HasNode(f, j, g) || (j == 0 && g == f)) ==>
             Right(secContains[j], g, itemPart, parts)
    }

    /** Which parts section i holds something of, and every section below it. */
    method Visit(i: nat, ghost f: Forest, ghost g: Forest, ghost busy: set<nat>)
      requires i < |sections| && Known(f, busy) && Tree(sections, f)
      requires HasNode(f, i, g) || (i == 0 && g == f)
      requires Elems(sections[i]) == Top(g) && Reps(sections, g) && Distinct(Ids(g))
      requires i !in busy && i !in Ids(g) && forall x :: x in Ids(g) ==> x !in busy
      modifies this`done, this`secContains
      ensures Known(f, busy) && done[i]
      ensures forall j :: 0 <= j < |sections| && old(done[j]) ==> done[j]
      decreases g
    {
      if done[i] { return; }
      done := done[i := true];
      var row := seq(parts, _ => false);
      var elems := Elems(sections[i]);
      ghost var now := busy + {i};
      for n := 0 to |elems|
        invariant Known(f, now) && done[i] && |row| == parts
        invariant Right(row, g[..n], itemPart, parts)
        invariant forall j :: 0 <= j < |sections| && old(done[j]) ==> done[j]
      {
        Elements(sections, g, n);
        var more: seq<bool>;
        match elems[n] {
          case Leaf(m, x) =>
            var at := itemPart;
            more := seq(parts, k requires 0 <= k < parts => row[k] || PartOf(at, m, x) == k);
          case Sec(j) =>
            Below(f, g, i, n);
            Visit(j, f, g[n].kids, now);
            var held := secContains[j];
            assert Right(held, g[n].kids, itemPart, parts);
            more := seq(parts, k requires 0 <= k < parts => row[k] || held[k]);
        }
        RightNext(row, more, g, n, itemPart, parts);
        row := more;
      }
      assert g[..|g|] == g;
      ghost var before := secContains;
      secContains := secContains[i := row];
      forall j: nat, h: Forest | j < |sections| && done[j] && j !in busy && (HasNode(f, j, h) || (j == 0 && h == f))
        ensures Right(secContains[j], h, itemPart, parts)
      {
        if j == i {
          OneNode(f, i, g, h);
        } else {
          assert j !in now && Right(before[j], h, itemPart, parts);
        }
      }
    }

    /** Which parts each section holds something of, and its number within each. */
    method AssignSections(ghost f: Forest)
      requires Tree(sections, f) && Ids(f) == Range(1, |sections| - 1)
      modifies this`done, this`secContains, this`secLocal
      ensures Contains(f)
      ensures |secLocal| == parts && forall k :: 0 <= k < parts ==> Numbered(secLocal[k], HeldBy(f, itemPart, k))
    {
      done := seq(|sections|, _ => false);
      secContains := seq(|sections|, _ => []);
      for i := 0 to |sections|
        invariant Known(f, {})
        invariant forall j :: 0 <= j < i ==> done[j]
      {
        ghost var g := NodeOf(sections, f, i);
        Visit(i, f, g, {});
      }
      secLocal := [];
      for k := 0 to parts
        invariant Contains(f) && |secLocal| == k
        invariant forall n :: 0 <= n < k ==> Numbered(secLocal[n], HeldBy(f, itemPart, n))
      {
        var local := NumberSections(k, f);
        secLocal := secLocal + [local];
      }
    }

    /** The sections that hold something of part k, numbered in the whole's order. */
    method NumberSections(k: nat, ghost f: Forest) returns (local: map<nat, nat>)
      requires k < parts && Tree(sections, f) && Ids(f) == Range(1, |sections| - 1) && Contains(f)
      ensures Numbered(local, HeldBy(f, itemPart, k))
    {
      local := map[0 := 0];
      var n := 1;
      ghost var held: seq<nat> := [];
      for i := 1 to |sections|
        invariant Ascending(held) && n == |held| + 1
        invariant forall x :: x in held <==> 1 <= x < i && x in HeldBy(f, itemPart, k)
        invariant Numbered(local, held)
      {
        HeldIs(f, i, k);
        if secContains[i][k] {
          NumberedNext(local, held, i);
          AscendingJoin(held, [i]);
          held := held + [i];
          local := local[i := n];
          n := n + 1;
        }
      }
      forall x ensures x in held <==> x in HeldBy(f, itemPart, k) {
        KeptWithin(f, itemPart, k, k + 1, x);
      }
      HeldAscending(f, itemPart, k, |sections| - 1);
      SameAscending(held, HeldBy(f, itemPart, k));
    }

    ghost predicate Contains(f: Forest)
      reads this
    {
      Known(f, {}) && forall j :: 0 <= j < |sections| ==> done[j]
    }

    /** The pointers of es that are in part k, numbered within the part. */
    method CutPointers(es: seq<Elem>, k: nat, ghost f: Forest) returns (r: seq<Elem>)
      requires k < parts && Tree(sections, f) && Contains(f) && Locals(itemPart, itemLocal)
      requires |secLocal| == parts && Numbered(secLocal[k], HeldBy(f, itemPart, k))
      requires forall n :: 0 <= n < |es| && es[n].Sec? ==> 1 <= es[n].i < |sections|
      ensures r == CutElems(HeldBy(f, itemPart, k), itemPart, k, es)
    {
      hide *;
      r := [];
      ghost var ids := HeldBy(f, itemPart, k);
      NoPointers(ids, itemPart, k, es);
      for n := 0 to |es|
        invariant r + CutElems(ids, itemPart, k, es[n..]) == CutElems(ids, itemPart, k, es)
      {
        CutFirst(ids, itemPart, k, es[n..]);
        assert es[n..][0] == es[n] && es[n..][1..] == es[n + 1..];
        var e := es[n];
        ghost var rest := CutElems(ids, itemPart, k, es[n + 1..]);
        match e {
          case Leaf(m, x) =>
            LeafIs(ids, itemPart, itemLocal, k, m, x);
            if PartOf(itemPart, m, x) == k {
              var l := Leaf(m, Row(itemLocal, m)[x]);
              assert r + ([l] + rest) == (r + [l]) + rest;
              r := r + [l];
            }
          case Sec(j) =>
            HeldIs(f, j, k);
            SecIs(ids, itemPart, secLocal[k], k, j);
            if secContains[j][k] {
              var l := Sec(secLocal[k][j]);
              assert r + ([l] + rest) == (r + [l]) + rest;
              r := r + [l];
            }
        }
      }
    }

    lemma NoPointers(ids: seq<nat>, at: Places, k: nat, es: seq<Elem>)
      ensures CutElems(ids, at, k, es[|es|..]) == [] && es[0..] == es
      ensures [] + CutElems(ids, at, k, es) == CutElems(ids, at, k, es)
    {}

    lemma LeafIs(ids: seq<nat>, at: Places, local: Places, k: nat, m: Member, x: nat)
      requires Locals(at, local)
      ensures InPart(ids, at, k, Leaf(m, x)) <==> PartOf(at, m, x) == k
      ensures PartOf(at, m, x) == k ==>
                x < |Row(local, m)| && LocElem(ids, at, k, Leaf(m, x)) == Leaf(m, Row(local, m)[x])
    {
      assert LocalRow(Row(at, m), Row(local, m));
    }

    lemma SecIs(ids: seq<nat>, at: Places, local: map<nat, nat>, k: nat, j: nat)
      requires Numbered(local, ids) && j > 0
      ensures InPart(ids, at, k, Sec(j)) <==> j in ids
      ensures j in ids ==> j in local && LocElem(ids, at, k, Sec(j)) == Sec(local[j])
    {}

    lemma HeldIs(f: Forest, j: nat, k: nat)
      requires k < parts && Tree(sections, f) && Contains(f) && 1 <= j < |sections|
      ensures |secContains| == |sections| && |secContains[j]| == parts
      ensures (secContains[j][k] <==> j in HeldBy(f, itemPart, k))
    {
      var g := NodeOf(sections, f, j);
      assert Right(secContains[j], g, itemPart, parts);
      NodeKept(f, itemPart, k, k + 1, j, g);
    }

    /** The spans clipped to part k's content, from its start. */
    method CutSpans(spans: seq<Span>, k: nat) returns (r: seq<Span>)
      requires k < |a| == |b| && a[k] <= b[k]
      ensures r == ClipSpans(spans, a[k], b[k], |spans|)
    {
      r := [];
      for n := 0 to |spans|
        invariant r == ClipSpans(spans, a[k], b[k], n)
      {
        var s := spans[n];
        if s.length == 0 {
          if a[k] <= s.offset <= b[k] { r := r + [Span(s.offset - a[k], 0)]; }
        } else {
          var lo := if s.offset > a[k] then s.offset else a[k];
          var hi := if End(s) < b[k] then End(s) else b[k];
          if lo < hi { r := r + [Span(lo - a[k], hi - lo)]; }
        }
      }
    }

    /** s is section i cut down to part k. */
    ghost predicate IsCutOf(s: Section, i: nat, k: nat, f: Forest)
      requires i < |sections| && k < |a| == |b| && a[k] <= b[k]
      reads this`itemPart
    {
      && Elems(s) == CutElems(HeldBy(f, itemPart, k), itemPart, k, Elems(sections[i]))
      && (s.elements.Some? <==> sections[i].elements.Some?) && (s.spans.Some? <==> sections[i].spans.Some?)
      && Spans(s) == ClipSpans(Spans(sections[i]), a[k], b[k], |Spans(sections[i])|)
    }

    method CutSection(i: nat, k: nat, ghost f: Forest) returns (s: Section)
      requires k < parts == |a| == |b| && a[k] <= b[k] && i < |sections| && Tree(sections, f) && Contains(f)
      requires Locals(itemPart, itemLocal)
      requires |secLocal| == parts && Numbered(secLocal[k], HeldBy(f, itemPart, k))
      ensures IsCutOf(s, i, k, f)
    {
      ghost var g := NodeOf(sections, f, i);
      PointsWithin(sections, f, g);
      var elements, spans := sections[i].elements, sections[i].spans;
      if elements.Some? {
        var es := CutPointers(elements.value, k, f);
        elements := Some(es);
      }
      if spans.Some? {
        var cut := CutSpans(spans.value, k);
        spans := Some(cut);
      }
      s := Section(elements, spans);
    }

    /** The sections after the root that hold something of part k. */
    method HeldSections(k: nat, ghost f: Forest) returns (r: seq<Section>)
      requires k < parts == |a| == |b| && a[k] <= b[k] && Tree(sections, f) && Contains(f)
      requires Ids(f) == Range(1, |sections| - 1) && Locals(itemPart, itemLocal)
      requires |secLocal| == parts && Numbered(secLocal[k], HeldBy(f, itemPart, k))
      ensures |r| == |HeldBy(f, itemPart, k)|
      ensures forall l :: 0 <= l < |r| ==>
               HeldBy(f, itemPart, k)[l] < |sections| && IsCutOf(r[l], HeldBy(f, itemPart, k)[l], k, f)
    {
      hide IsCutOf, Contains, Locals, Numbered, Tree, CutElems;
      ghost var ids := HeldBy(f, itemPart, k);
      HeldAscending(f, itemPart, k, |sections| - 1);
      forall l | 0 <= l < |ids| ensures 1 <= ids[l] < |sections| {
        HeldWithin(f, itemPart, k, |sections| - 1, ids[l]);
      }
      hide HeldBy;
      r := [];
      for i := 1 to |sections|
        invariant |r| <= |ids|
        invariant forall l :: 0 <= l < |r| ==> ids[l] < i && ids[l] < |sections| && IsCutOf(r[l], ids[l], k, f)
        invariant forall l :: |r| <= l < |ids| ==> ids[l] >= i
      {
        HeldIs(f, i, k);
        if secContains[i][k] {
          var s := CutSection(i, k, f);
          NextHeld(ids, |r|, i);
          r := r + [s];
        } else {
          assert forall l :: |r| <= l < |ids| ==> ids[l] in ids;
        }
      }
    }

    /** Part k's sections: none if no section holds anything of the part. */
    method Sections(k: nat, ghost f: Forest) returns (r: seq<Section>)
      requires k < parts == |a| == |b| && a[k] <= b[k] && Tree(sections, f) && Contains(f)
      requires Ids(f) == Range(1, |sections| - 1) && Locals(itemPart, itemLocal)
      requires |secLocal| == parts && Numbered(secLocal[k], HeldBy(f, itemPart, k))
      ensures Keep(f, itemPart, k, k + 1) == [] ==> r == []
      ensures Keep(f, itemPart, k, k + 1) != [] ==>
                && CutTable(sections, f, itemPart, k, r)
                && IsCutOf(r[0], 0, k, f)
                && forall l :: 0 <= l < |r| - 1 ==>
                     HeldBy(f, itemPart, k)[l] < |sections| && IsCutOf(r[l + 1], HeldBy(f, itemPart, k)[l], k, f)
    {
      assert Right(secContains[0], f, itemPart, parts);
      if !secContains[0][k] { return []; }
      hide Contains, Locals, Numbered, Keep, Right, Known, CutElems, ClipSpans, HeldBy;
      var root := CutSection(0, k, f);
      var rest := HeldSections(k, f);
      r := [root] + rest;
    }
  }

  /** The first n spans clipped to [a, b], from a; an empty one is kept where it lies within. */
  function ClipSpans(spans: seq<Span>, a: nat, b: nat, n: nat): seq<Span>
    requires n <= |spans| && a <= b
    decreases n
  {
    if n == 0 then []
    else
      var s, before := spans[n - 1], ClipSpans(spans, a, b, n - 1);
      if s.length == 0 then (if a <= s.offset <= b then before + [Span(s.offset - a, 0)] else before)
      else
        var lo := if s.offset > a then s.offset else a;
        var hi := if End(s) < b then End(s) else b;
        if lo < hi then before + [Span(lo - a, hi - lo)] else before
  }

  lemma {:induction false} ClippedWithin(spans: seq<Span>, a: nat, b: nat, n: nat)
    requires n <= |spans| && a <= b
    ensures Within(ClipSpans(spans, a, b, n), b - a)
    decreases n
  {
    if n > 0 { ClippedWithin(spans, a, b, n - 1); }
  }

  lemma AscendAt(ids: seq<nat>, i: nat, j: nat)
    requires Ascending(ids) && i < j < |ids|
    ensures ids[i] < ids[j]
  {}

  lemma NextHeld(ids: seq<nat>, n: nat, i: nat)
    requires Ascending(ids) && i in ids && n <= |ids|
    requires (forall l :: 0 <= l < n ==> ids[l] < i) && forall l :: n <= l < |ids| ==> ids[l] >= i
    ensures n < |ids| && ids[n] == i && forall l :: n < l < |ids| ==> ids[l] > i
  {
    var l: nat :| l < |ids| && ids[l] == i;
    if n < l { AscendAt(ids, n, l); }
  }

  lemma HeldWithin(f: Forest, at: Places, k: nat, n: nat, x: nat)
    requires Ids(f) == Range(1, n) && x in HeldBy(f, at, k)
    ensures 1 <= x <= n
  {
    KeptWithin(f, at, k, k + 1, x);
  }

  ghost predicate Ascending(s: seq<nat>) { forall i, j :: 0 <= i < j < |s| ==> s[i] < s[j] }

  /** Each of these sections is numbered by its place among them, from 1; the root is 0. */
  ghost predicate Numbered(local: map<nat, nat>, ids: seq<nat>) {
    && 0 in local && local[0] == 0
    && forall x :: x in ids ==> x in local && local[x] == Find(ids, x) + 1
  }

  lemma NumberedNext(local: map<nat, nat>, held: seq<nat>, i: nat)
    requires Numbered(local, held) && i > 0 && i !in held
    ensures Numbered(local[i := |held| + 1], held + [i])
  {
    forall x | x in held + [i]
      ensures x in local[i := |held| + 1] && local[i := |held| + 1][x] == Find(held + [i], x) + 1
    {
      FindLonger(held, i, x);
    }
  }

  lemma FindLonger(s: seq<nat>, i: nat, x: nat)
    requires x in s || x == i
    ensures Find(s + [i], x) == if x in s then Find(s, x) else |s|
  {
    var all := s + [i];
    if x in s {
      var e := Find(s, x);
      assert all[..e] == s[..e];
      FindIs(all, x, e);
    } else {
      assert all[..|s|] == s;
      FindIs(all, x, |s|);
    }
  }

  lemma {:induction false} FindIs(s: seq<nat>, x: nat, n: nat)
    requires n < |s| && s[n] == x && x !in s[..n]
    ensures Find(s, x) == n
    decreases n
  {
    if n > 0 {
      assert s[0] in s[..n];
      assert forall y :: y in s[1..][..n - 1] ==> y in s[..n];
      FindIs(s[1..], x, n - 1);
    }
  }

  lemma {:induction false} SameAscending(a: seq<nat>, b: seq<nat>)
    requires Ascending(a) && Ascending(b) && forall x :: x in a <==> x in b
    ensures a == b
    decreases |a|
  {
    if a == [] {
      if b != [] { SomeIn(b); }
    } else {
      var n := |a| - 1;
      assert a[n] in b;
      var m := |b| - 1;
      assert b[m] in a;
      assert a[n] == b[m];
      forall x ensures x in a[..n] <==> x in b[..m] {
        if x in a[..n] { LastApart(a, x); }
        if x in b[..m] { LastApart(b, x); }
        assert x in a <==> x in a[..n] || x == a[n];
        assert x in b <==> x in b[..m] || x == b[m];
      }
      SameAscending(a[..n], b[..m]);
      assert a == a[..n] + [a[n]] && b == b[..m] + [b[m]];
    }
  }

  lemma SomeIn(b: seq<nat>)
    requires b != []
    ensures exists x :: x in b
  {
    assert b[0] in b;
  }

  lemma LastApart(a: seq<nat>, x: nat)
    requires Ascending(a) && a != [] && x in a[..|a| - 1]
    ensures x != a[|a| - 1]
  {}

  /** What is kept of ascending sections ascends. */
  lemma {:induction false} KeptAscending(g: Forest, at: Places, lo: int, hi: int)
    requires Ascending(Ids(g))
    ensures Ascending(Ids(Keep(g, at, lo, hi)))
    decreases g
  {
    if g != [] {
      IdsOf(g);
      AscendingParts(ItemIds(g[0]), Ids(g[1..]));
      KeptAscending(g[1..], at, lo, hi);
      var x, rest := KeepItem(g[0], at, lo, hi), Keep(g[1..], at, lo, hi);
      KeepFirst(g, at, lo, hi);
      if x != [] {
        if g[0].S? {
          AscendingParts([g[0].i], Ids(g[0].kids));
          KeptAscending(g[0].kids, at, lo, hi);
          forall i | i in Ids(x[0].kids) ensures i in Ids(g[0].kids) { KeptWithin(g[0].kids, at, lo, hi, i); }
          AscendingJoin([g[0].i], Ids(x[0].kids));
        }
        IdsCons(x[0], rest);
        forall i | i in ItemIds(x[0]) ensures i in ItemIds(g[0]) {
          if i != g[0].i { KeptWithin(g[0].kids, at, lo, hi, i); }
        }
        forall i | i in Ids(rest) ensures i in Ids(g[1..]) { KeptWithin(g[1..], at, lo, hi, i); }
        AscendingJoin(ItemIds(x[0]), Ids(rest));
      }
    }
  }

  lemma AscendingParts(a: seq<nat>, b: seq<nat>)
    requires Ascending(a + b)
    ensures Ascending(a) && Ascending(b) && forall x, y :: x in a && y in b ==> x < y
  {
    var s := a + b;
    assert forall i :: 0 <= i < |a| ==> s[i] == a[i];
    assert forall j :: 0 <= j < |b| ==> s[|a| + j] == b[j];
  }

  lemma AscendingJoin(a: seq<nat>, b: seq<nat>)
    requires Ascending(a) && Ascending(b) && forall x, y :: x in a && y in b ==> x < y
    ensures Ascending(a + b)
  {
    forall i, j | 0 <= i < j < |a + b| ensures (a + b)[i] < (a + b)[j] {
      if i < |a| && j >= |a| { assert a[i] in a && b[j - |a|] in b; }
    }
  }

  lemma HeldAscending(f: Forest, at: Places, k: nat, n: nat)
    requires Ids(f) == Range(1, n)
    ensures Ascending(HeldBy(f, at, k))
  {
    KeptAscending(f, at, k, k + 1);
  }

  /** A section of a tree, with its content. */
  lemma NodeOf(secs: seq<Section>, f: Forest, i: nat) returns (g: Forest)
    requires Tree(secs, f) && i < |secs|
    ensures (HasNode(f, i, g) || (i == 0 && g == f)) && (i > 0 ==> HasNode(f, i, g))
    ensures Elems(secs[i]) == Top(g) && Reps(secs, g) && Distinct(Ids(g)) && i !in Ids(g)
    ensures forall x :: x in Ids(g) ==> 1 <= x < |secs|
  {
    if i == 0 {
      g := f;
    } else {
      assert i in Ids(f);
      g := NodeIn(secs, f, i);
    }
  }

  lemma {:induction false} NodeIn(secs: seq<Section>, f: Forest, i: nat) returns (g: Forest)
    requires Reps(secs, f) && Distinct(Ids(f)) && i in Ids(f)
    ensures HasNode(f, i, g) && i < |secs| && Elems(secs[i]) == Top(g) && Reps(secs, g)
    ensures Distinct(Ids(g)) && i !in Ids(g) && forall x :: x in Ids(g) ==> x in Ids(f)
    decreases f
  {
    DistinctSplit(f);
    IdsOf(f);
    if i in Ids(f[1..]) {
      g := NodeIn(secs, f[1..], i);
    } else {
      assert i in ItemIds(f[0]);
      SelfApart(f);
      if i == f[0].i {
        g := f[0].kids;
      } else {
        assert i in Ids(f[0].kids);
        g := NodeIn(secs, f[0].kids, i);
      }
      assert forall x :: x in Ids(f[0].kids) ==> x in ItemIds(f[0]);
    }
  }

  lemma PointsWithin(secs: seq<Section>, f: Forest, g: Forest)
    requires forall x :: x in Ids(g) ==> 1 <= x < |secs|
    ensures forall n :: 0 <= n < |Top(g)| && Top(g)[n].Sec? ==> 1 <= Top(g)[n].i < |secs|
  {
    TopAt(g);
    forall n | 0 <= n < |g| && g[n].S? ensures g[n].i in Ids(g) { TopIn(g, n); }
  }

  ghost predicate Assigns(row: seq<int>, items: seq<Place>, partOf: map<nat, nat>, a: seq<nat>, b: seq<nat>)
    requires |a| == |b|
  {
    |row| == |items| && forall i :: 0 <= i < |items| ==> row[i] == PartAt(items[i], partOf, a, b)
  }

  ghost predicate LocalRow(row: seq<int>, local: seq<int>) {
    |local| == |row| && forall i :: 0 <= i < |row| && row[i] >= 0 ==> local[i] == CountOf(row, row[i], i)
  }

  ghost predicate Locals(at: Places, local: Places) {
    forall m: Member :: LocalRow(Row(at, m), Row(local, m))
  }

  lemma {:induction false} CountSame(row: seq<int>, more: seq<int>, k: nat, n: nat)
    requires n <= |row| && row <= more
    ensures CountOf(row, k, n) == CountOf(more, k, n)
    decreases n
  {
    if n > 0 { CountSame(row, more, k, n - 1); }
  }

  lemma CountMore(row: seq<int>, x: int)
    ensures forall k: nat, n: nat :: n <= |row| ==> CountOf(row + [x], k, n) == CountOf(row, k, n)
    ensures forall k: nat :: CountOf(row + [x], k, |row| + 1) == CountOf(row, k, |row|) + if x == k then 1 else 0
  {
    forall k: nat, n: nat | n <= |row| ensures CountOf(row + [x], k, n) == CountOf(row, k, n) {
      CountSame(row, row + [x], k, n);
    }
  }

  /** How many of the items so far are in each part. */
  ghost predicate Tallied(count: map<int, nat>, row: seq<int>) {
    forall k: nat :: (if k in count then count[k] else 0) == CountOf(row, k, |row|)
  }

  /** One item more, in part x or in none. */
  lemma TallyNext(count: map<int, nat>, row: seq<int>, x: int)
    requires Tallied(count, row) && (x == -2 || x >= 0)
    ensures x == -2 ==> Tallied(count, row + [-1])
    ensures x >= 0 ==>
              var c := if x in count then count[x] else 0;
              Tallied(count[x := c + 1], row + [x]) && CountOf(row, x, |row|) == c
  {
    if x >= 0 {
      CountMore(row, x);
    } else {
      CountMore(row, -1);
    }
  }

  /** The first n items are in the parts their places say, each numbered among those before it in its part. */
  ghost predicate Assigned(
      part: seq<int>, local: seq<int>, items: seq<Place>, partOf: map<nat, nat>, a: seq<nat>, b: seq<nat>, n: nat)
    requires |a| == |b|
  {
    && |part| == |local| == n <= |items|
    && (forall j :: 0 <= j < n ==> part[j] == PartAt(items[j], partOf, a, b))
    && (forall j :: 0 <= j < n ==> local[j] == LocalOf(part, j))
  }

  function LocalOf(part: seq<int>, j: nat): int
    requires j < |part|
  {
    if part[j] < 0 then -1 else CountOf(part, part[j], j)
  }

  lemma NothingAssigned(items: seq<Place>, partOf: map<nat, nat>, a: seq<nat>, b: seq<nat>)
    requires |a| == |b|
    ensures Assigned([], [], items, partOf, a, b, 0) && Tallied(map[], [])
  {}

  lemma AssignedLength(
      part: seq<int>, local: seq<int>, items: seq<Place>, partOf: map<nat, nat>, a: seq<nat>, b: seq<nat>, n: nat)
    requires |a| == |b| && Assigned(part, local, items, partOf, a, b, n)
    ensures |part| == |local| == n
  {}

  lemma LocalMore(part: seq<int>, x: int, j: nat)
    requires j < |part|
    ensures LocalOf(part + [x], j) == LocalOf(part, j)
  {
    if part[j] >= 0 { CountSame(part, part + [x], part[j], j); }
  }

  lemma AssignedNext(
      part: seq<int>, local: seq<int>, items: seq<Place>, partOf: map<nat, nat>, a: seq<nat>, b: seq<nat>, n: nat,
      x: int)
    requires |a| == |b| && Assigned(part, local, items, partOf, a, b, n) && n < |items|
    requires x == PartAt(items[n], partOf, a, b)
    ensures Assigned(part + [x], local + [if x < 0 then -1 else CountOf(part, x, n)], items, partOf, a, b, n + 1)
  {
    hide CountOf, PartAt, LocalOf;
    forall j | 0 <= j < n ensures (local + [if x < 0 then -1 else CountOf(part, x, n)])[j] == LocalOf(part + [x], j) {
      LocalMore(part, x, j);
    }
    LocalLast(part, x);
  }

  lemma LocalLast(part: seq<int>, x: int)
    ensures LocalOf(part + [x], |part|) == if x < 0 then -1 else CountOf(part, x, |part|)
  {
    if x >= 0 { CountSame(part, part + [x], x, |part|); }
  }

  lemma AssignedAll(part: seq<int>, local: seq<int>, items: seq<Place>, partOf: map<nat, nat>, a: seq<nat>, b: seq<nat>)
    requires |a| == |b| && Assigned(part, local, items, partOf, a, b, |items|)
    ensures |part| == |local| == |items|
    ensures forall i :: 0 <= i < |items| ==> part[i] == PartAt(items[i], partOf, a, b)
    ensures forall i :: 0 <= i < |items| ==> local[i] == if part[i] < 0 then -1 else CountOf(part, part[i], i)
  {
    hide CountOf, PartAt;
    assert forall i :: 0 <= i < |items| ==> local[i] == LocalOf(part, i);
  }

  lemma Elements(secs: seq<Section>, g: Forest, n: nat)
    requires n < |g| && Reps(secs, g)
    ensures |Top(g)| == |g| && Top(g)[n] == Pointer(g[n]) && ItemReps(secs, g[n])
  {
    TopAt(g);
    assert g == g[..n] + g[n..];
    RepsConcat(secs, g[..n], g[n..]);
  }

  lemma Below(f: Forest, g: Forest, i: nat, n: nat)
    requires n < |g| && g[n].S? && Distinct(Ids(g)) && i !in Ids(g) && (HasNode(f, i, g) || (i == 0 && g == f))
    ensures HasNode(f, g[n].i, g[n].kids) && g[n].i in Ids(g) && g[n].i != i
    ensures Distinct(Ids(g[n].kids)) && g[n].i !in Ids(g[n].kids)
    ensures forall x :: x in Ids(g[n].kids) ==> x in Ids(g) && x != i
  {
    Child(g, n);
    if HasNode(f, i, g) { Through(f, i, g, g[n].i, g[n].kids); }
  }

  lemma {:induction false} Child(g: Forest, n: nat)
    requires n < |g| && g[n].S? && Distinct(Ids(g))
    ensures HasNode(g, g[n].i, g[n].kids) && g[n].i in Ids(g)
    ensures Distinct(Ids(g[n].kids)) && g[n].i !in Ids(g[n].kids)
    ensures forall x :: x in Ids(g[n].kids) ==> x in Ids(g)
    decreases |g|
  {
    DistinctSplit(g);
    if n > 0 {
      Child(g[1..], n - 1);
    } else {
      FirstId(g);
      SelfApart(g);
      assert forall x :: x in Ids(g[0].kids) ==> x in ItemIds(g[0]);
    }
  }

  lemma {:induction false} Through(f: Forest, i: nat, g: Forest, j: nat, h: Forest)
    requires HasNode(f, i, g) && HasNode(g, j, h)
    ensures HasNode(f, j, h)
    decreases f
  {
    if HasNode(f[1..], i, g) {
      Through(f[1..], i, g, j, h);
    } else if f[0].i != i || f[0].kids != g {
      Through(f[0].kids, i, g, j, h);
    }
  }

  /** A section has one content. */
  lemma OneNode(f: Forest, i: nat, g: Forest, h: Forest)
    requires Distinct(Ids(f)) && forall x :: x in Ids(f) ==> x > 0
    requires (HasNode(f, i, g) || (i == 0 && g == f)) && (HasNode(f, i, h) || (i == 0 && h == f))
    ensures g == h
  {
    if HasNode(f, i, g) { NodeIds(f, i, g); }
    if HasNode(f, i, h) { NodeIds(f, i, h); }
    if i > 0 { SameNode(f, i, g, h); }
  }

  lemma {:induction false} SameNode(f: Forest, i: nat, g: Forest, h: Forest)
    requires Distinct(Ids(f)) && HasNode(f, i, g) && HasNode(f, i, h)
    ensures g == h
    decreases f
  {
    DistinctSplit(f);
    if HasNode(f[1..], i, g) {
      NodeIds(f[1..], i, g);
      NotBefore(f, i);
      if !HasNode(f[1..], i, h) { InFirst(f, i, h); }
      SameNode(f[1..], i, g, h);
    } else {
      InFirst(f, i, g);
      NotAfter(f, i);
      if HasNode(f[1..], i, h) { NodeIds(f[1..], i, h); }
      SelfApart(f);
      if HasNode(f[0].kids, i, g) {
        NodeIds(f[0].kids, i, g);
        SameNode(f[0].kids, i, g, h);
      } else if HasNode(f[0].kids, i, h) {
        NodeIds(f[0].kids, i, h);
      }
    }
  }

  lemma InFirst(f: Forest, i: nat, g: Forest)
    requires HasNode(f, i, g) && !HasNode(f[1..], i, g)
    ensures f[0].S? && i in ItemIds(f[0])
  {
    if f[0].i != i || f[0].kids != g { NodeIds(f[0].kids, i, g); }
    assert i == ItemIds(f[0])[0] || i in Ids(f[0].kids);
  }
}
