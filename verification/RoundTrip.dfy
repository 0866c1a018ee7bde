/** Merging the parts of a cut gives back the sections that were cut. */
module RoundTrip {
  import opened Lists
  import opened Sections
  import opened Forest
  import opened Lead
  import opened Renumber
  import opened Fold
  import opened Incremental
  import opened LeftOpen
  import opened Document
  import opened Cutting
  import opened CutPart
  import opened Continues
  import opened CutShape

  /** Every item is in a part, and no item in an earlier one than an item before it. */
  ghost predicate Sorted(row: seq<int>) {
    && (forall i :: 0 <= i < |row| ==> row[i] >= 0)
    && forall i, j :: 0 <= i < j < |row| ==> row[i] <= row[j]
  }

  lemma {:induction false} CountNext(row: seq<int>, k: nat, n: nat)
    ensures CountBelow(row, k + 1, n) == CountBelow(row, k, n) + CountOf(row, k, n)
    decreases n
  {
    if n > 0 { CountNext(row, k, n - 1); }
  }

  lemma {:induction false} CountNone(row: seq<int>, n: nat)
    requires Sorted(row)
    ensures CountBelow(row, 0, n) == 0
    decreases n
  {
    if n > 0 { CountNone(row, n - 1); }
  }

  lemma {:induction false} CountBefore(row: seq<int>, k: nat, i: nat, n: nat)
    requires Sorted(row) && i < |row| && row[i] == k && n <= i
    ensures CountBelow(row, k, n) + CountOf(row, k, n) == n
    decreases n
  {
    if n > 0 { CountBefore(row, k, i, n - 1); }
  }

  lemma {:induction false} CountAfter(row: seq<int>, k: nat, i: nat, n: nat)
    requires Sorted(row) && i < |row| && row[i] == k && i <= n <= |row|
    ensures CountBelow(row, k, n) == CountBelow(row, k, i)
    decreases n
  {
    if i < n { CountAfter(row, k, i, n - 1); }
  }

  /** An item's place is the items of earlier parts, then those of its own before it. */
  lemma LeafLands(row: seq<int>, k: nat, i: nat)
    requires Sorted(row) && i < |row| && row[i] == k
    ensures i == CountOf(row, k, i) + CountBelow(row, k, |row|)
  {
    CountBefore(row, k, i, i);
    CountAfter(row, k, i, |row|);
  }

  /** The parts' own counts of each member are the cut's. */
  ghost predicate Counted(parts: seq<Part>, at: Places) {
    forall k, m: Member :: 0 <= k < |parts| ==> Count(parts[k], m) == CountOf(Row(at, m), k, |Row(at, m)|)
  }

  lemma {:induction false} BaseIs(parts: seq<Part>, at: Places, k: nat, m: Member)
    requires k <= |parts| && Counted(parts, at) && Sorted(Row(at, m))
    ensures Base(BasesTo(parts, k), m) == CountBelow(Row(at, m), k, |Row(at, m)|)
    decreases k
  {
    var row := Row(at, m);
    if k == 0 {
      CountNone(row, |row|);
    } else {
      BaseIs(parts, at, k - 1, m);
      CountNext(row, k - 1, |row|);
      assert Count(parts[k - 1], m) == CountOf(row, k - 1, |row|);
    }
  }

  lemma {:induction false} KeptLeaves(g: Forest, at: Places, lo: int, hi: int)
    ensures forall n :: 0 <= n < |Leaves(Keep(g, at, lo, hi))| ==>
              Leaves(Keep(g, at, lo, hi))[n].Leaf? && lo <= LeafPart(at, Leaves(Keep(g, at, lo, hi))[n]) < hi
    decreases g
  {
    if g != [] {
      hide Leaves, Keep;
      KeptLeaves(g[1..], at, lo, hi);
      if g[0].S? { KeptLeaves(g[0].kids, at, lo, hi); }
      KeepFirst(g, at, lo, hi);
      var x, rest := KeepItem(g[0], at, lo, hi), Keep(g[1..], at, lo, hi);
      if x != [] {
        var all := [x[0]] + rest;
        assert all[1..] == rest;
        LeafAt(all);
      }
    } else {
      NoLeaves();
    }
  }

  lemma NoLeaves()
    ensures Leaves([]) == []
  {}

  /** With every leaf in range, everything is kept. */
  lemma {:induction false} KeepAll(g: Forest, at: Places, heads: set<nat>, lo: int, hi: int)
    requires Titled(g, heads) && forall n :: 0 <= n < |Leaves(g)| ==> lo <= LeafPart(at, Leaves(g)[n]) < hi
    ensures Keep(g, at, lo, hi) == g
    decreases g
  {
    hide *;
    if g == [] {
      KeepNothing(g, at, lo, hi);
    } else {
      TitledBelow(g, heads);
      LeafAt(g);
      KeepFirst(g, at, lo, hi);
      FirstLeaves(g[0]);
      KeepAll(g[1..], at, heads, lo, hi);
      if g[0].S? {
        KeepAll(g[0].kids, at, heads, lo, hi);
        KidsKept(g[0], at, lo, hi, heads);
      } else {
        assert Leaves(g)[0] == Leaf(g[0].m, g[0].n);
        LeafKept(g[0], at, lo, hi);
      }
      assert g == [g[0]] + g[1..];
    }
  }

  lemma KeepNothing(g: Forest, at: Places, lo: int, hi: int)
    requires g == []
    ensures Keep(g, at, lo, hi) == []
  {}

  lemma FirstLeaves(x: Item)
    ensures x.L? ==> ItemLeaves(x) == [Leaf(x.m, x.n)]
    ensures x.S? ==> ItemLeaves(x) == Leaves(x.kids)
  {}

  lemma KidsKept(x: Item, at: Places, lo: int, hi: int, heads: set<nat>)
    requires x.S? && Keep(x.kids, at, lo, hi) == x.kids && TitledSection(x.kids, heads)
    ensures KeepItem(x, at, lo, hi) == [x]
  {}

  lemma LeafKept(x: Item, at: Places, lo: int, hi: int)
    requires x.L? && lo <= LeafPart(at, Leaf(x.m, x.n)) < hi
    ensures KeepItem(x, at, lo, hi) == [x]
  {}

  /** What the first parts hold is the first sections, whole numbering and all. */
  lemma {:induction false} KeptPrefix(g: Forest, at: Places, heads: set<nat>, k: nat)
    requires Ready(g, at, heads)
    ensures Ids(Keep(g, at, 0, k)) <= Ids(g)
    decreases g
  {
    if g != [] {
      hide *;
      ReadyBelow(g, at, heads);
      KeepFirst(g, at, 0, k);
      IdsOf(g);
      var rest := Keep(g[1..], at, 0, k);
      if (forall n :: 0 <= n < |ItemLeaves(g[0])| ==> LeafPart(at, ItemLeaves(g[0])[n]) < k) {
        KeptPrefix(g[1..], at, heads, k);
        WholeItem(g, at, heads, k);
        IdsCons(g[0], rest);
        PrefixAfter(ItemIds(g[0]), Ids(rest), Ids(g[1..]));
      } else {
        LateItem(g, at, heads, k);
        if g[0].S? { KeptPrefix(g[0].kids, at, heads, k); }
        LatePrefix(g, at, k);
      }
    }
  }

  lemma IdsCons(x: Item, rest: Forest)
    ensures Ids([x] + rest) == ItemIds(x) + Ids(rest)
  {
    assert ([x] + rest)[1..] == rest;
  }

  lemma PrefixAfter(a: seq<nat>, b: seq<nat>, c: seq<nat>)
    requires b <= c
    ensures a + b <= a + c
  {}

  lemma LatePrefix(g: Forest, at: Places, k: nat)
    requires g != [] && Keep(g[1..], at, 0, k) == []
    requires g[0].L? ==> KeepItem(g[0], at, 0, k) == []
    requires g[0].S? ==> Ids(Keep(g[0].kids, at, 0, k)) <= Ids(g[0].kids)
    ensures Ids(Keep(g, at, 0, k)) <= Ids(g)
  {
    var x := KeepItem(g[0], at, 0, k);
    KeepFirst(g, at, 0, k);
    if x != [] {
      One(x[0]);
      PrefixAfter([g[0].i], Ids(x[0].kids), Ids(g[0].kids));
      IdsOf(g);
      assert Keep(g, at, 0, k) == x && Ids(x) <= ItemIds(g[0]);
      hide *;
      PrefixLonger(Ids(x), ItemIds(g[0]), Ids(g[1..]));
    } else {
      assert Ids(Keep(g, at, 0, k)) == [];
    }
  }

  lemma PrefixLonger(a: seq<nat>, b: seq<nat>, c: seq<nat>)
    requires a <= b
    ensures a <= b + c
  {}

  lemma WholeItem(g: Forest, at: Places, heads: set<nat>, k: nat)
    requires g != [] && Ready(g, at, heads)
    requires forall n :: 0 <= n < |ItemLeaves(g[0])| ==> LeafPart(at, ItemLeaves(g[0])[n]) < k
    ensures KeepItem(g[0], at, 0, k) == [g[0]]
  {
    hide Leaves;
    ReadyBelow(g, at, heads);
    LeafAt(g);
    if g[0].S? {
      KeepAll(g[0].kids, at, heads, 0, k);
    } else {
      assert ItemLeaves(g[0])[0] == Leaf(g[0].m, g[0].n);
    }
  }

  lemma LateItem(g: Forest, at: Places, heads: set<nat>, k: nat)
    requires g != [] && Ready(g, at, heads)
    requires !(forall n :: 0 <= n < |ItemLeaves(g[0])| ==> LeafPart(at, ItemLeaves(g[0])[n]) < k)
    ensures Keep(g[1..], at, 0, k) == []
    ensures g[0].L? ==> KeepItem(g[0], at, 0, k) == []
  {
    hide Leaves;
    var n :| 0 <= n < |ItemLeaves(g[0])| && LeafPart(at, ItemLeaves(g[0])[n]) >= k;
    var h := LeafPart(at, ItemLeaves(g[0])[n]) + 1;
    assert !Without(ItemLeaves(g[0]), at, k, h);
    AllAfter(g, at, 0, k, h);
    KeptNone(g[1..], at, 0, k);
    if g[0].L? { assert ItemLeaves(g[0]) == [Leaf(g[0].m, g[0].n)]; }
  }

  /**
   * A whole result's sections as they can be cut in n parts and merged again: a tree numbered in
   * pre-order, every section opening with its heading and holding its leaves before its sub-sections,
   * its leaves in parts in document order, the items of each member too, and something in every part.
   */
  ghost predicate Cuttable(w: seq<Section>, f: Forest, heads: set<nat>, at: Places, n: nat) {
    && Tree(w, f) && Ids(f) == Range(1, |w| - 1)
    && Ready(f, at, heads) && LeavesFirst(f)
    && (forall m: Member :: Sorted(Row(at, m)))
    && (forall l :: 0 <= l < |Leaves(f)| ==> LeafPart(at, Leaves(f)[l]) < n)
    && (forall k :: 0 <= k < n ==> HoldsSome(f, at, k))
  }

  predicate HoldsSome(f: Forest, at: Places, k: nat) { Keep(f, at, k, k + 1) != [] }

  ghost predicate CutInto(w: seq<Section>, f: Forest, heads: set<nat>, at: Places, parts: seq<Part>)
    requires Tree(w, f)
  {
    forall k :: 0 <= k < |parts| ==> IsCut(w, f, heads, at, k, parts[k])
  }

  lemma PrefixRange(ids: seq<nat>, n: nat)
    requires ids <= Range(1, n)
    ensures ids == Range(1, |ids|)
  {}

  /** The sections after the folded ones follow on from the merged ones. */
  lemma NewIds(f: Forest, at: Places, heads: set<nat>, k: nat, n: nat) returns (rest: seq<nat>)
    requires Ready(f, at, heads) && Ids(f) == Range(1, n)
    ensures var m, e := Keep(f, at, 0, k), Keep(f, at, k, k + 1);
            && Glue(m, e) == Keep(f, at, 0, k + 1)
            && rest == Ids(Flat(Peel(e, Meet(m, e))))
            && Nested(e, Meet(m, e)) && Ids(e) == Firsts(e, Meet(m, e)) + rest
            && Ids(m) == Range(1, |Ids(m)|)
            && rest == Range(|Ids(m)| + 1, |rest|)
  {
    var m, e := Keep(f, at, 0, k), Keep(f, at, k, k + 1);
    KeepGlue(f, at, 0, k, k + 1);
    KeptPrefix(f, at, heads, k);
    KeptPrefix(f, at, heads, k + 1);
    hide Keep, Ready, Ids, Flat, Peel, Glue;
    PrefixRange(Ids(m), n);
    PrefixRange(Ids(Glue(m, e)), n);
    MeetNested(m, e);
    PeelNested(e, Meet(m, e));
    GlueIs(m, e);
    var pieces := Peel(e, Meet(m, e));
    PeelSize(e, Meet(m, e));
    ExtendedIds(m, pieces);
    rest := Ids(Flat(pieces));
    RangeRest(Ids(m), rest);
  }

  lemma PeelSize(f: Forest, n: nat)
    ensures |Peel(f, n)| == n + 1
  {}

  lemma RangeRest(a: seq<nat>, b: seq<nat>)
    requires a == Range(1, |a|) && a + b == Range(1, |a + b|)
    ensures b == Range(|a| + 1, |b|)
  {
    forall j | 0 <= j < |b| ensures b[j] == |a| + 1 + j {
      assert (a + b)[|a| + j] == b[j];
    }
  }

  lemma NewIdsLand(sh: Shift, ids: seq<nat>, first: seq<nat>, rest: seq<nat>)
    requires Distinct(ids) && ids == first + rest && sh.secDrop == |first| && rest == Range(sh.secBase, |rest|)
    ensures IdsLand(sh, ids, rest)
  {
    forall j | 0 <= j < |rest| ensures rest[j] == RenSec(sh, Find(ids, rest[j]) + 1) {
      hide *;
      JoinAt(first, rest);
      FoundAt(ids, |first| + j);
      RenAt(sh, rest, j);
    }
  }

  lemma RenAt(sh: Shift, rest: seq<nat>, j: nat)
    requires rest == Range(sh.secBase, |rest|) && j < |rest|
    ensures RenSec(sh, sh.secDrop + j + 1) == rest[j]
  {}

  lemma LeavesAllLand(f: Forest, at: Places, k: nat, parts: seq<Part>, sh: Shift)
    requires k <= |parts| && Counted(parts, at) && sh.ptr == BasesTo(parts, k)
    requires forall m: Member :: Sorted(Row(at, m))
    ensures LeavesLand(sh, at, k, Leaves(Keep(f, at, k, k + 1)))
  {
    KeptLeaves(f, at, k, k + 1);
    var ls := Leaves(Keep(f, at, k, k + 1));
    hide Leaves, Keep, BasesTo, CountOf, CountBelow;
    forall n | 0 <= n < |ls|
      ensures ls[n].Leaf? && ls[n].n == CountOf(Row(at, ls[n].m), k, ls[n].n) + Base(sh.ptr, ls[n].m)
    {
      BaseIs(parts, at, k, ls[n].m);
      LeafLands(Row(at, ls[n].m), k, ls[n].n);
    }
  }

  /** After k parts: the tree of what they hold, with the whole's numbers, open as deep as it goes. */
  ghost predicate Restored(
      parts: seq<Part>, shapes: seq<Shape>, f: Forest, at: Places, k: nat, open: seq<At>, t: seq<Section>)
    requires k <= |parts| == |shapes|
  {
    var m := Keep(f, at, 0, k);
    && Placed(parts, shapes, open) && |t| == SecsTo(parts, shapes, k)
    && Tree(t, m) && OpenIn(t, m, WhereAll(parts, shapes, open)) && |open| == |Path(m)|
  }

  lemma CutHolds(w: seq<Section>, f: Forest, heads: set<nat>, at: Places, k: nat, p: Part)
    requires Tree(w, f) && IsCut(w, f, heads, at, k, p)
    ensures CutSections(p, HeldBy(f, at, k), at, k, heads) && AllExtensible(p)
    ensures HoldsAt(p, HeldBy(f, at, k), at, k, 0, Keep(f, at, k, k + 1))
  {
    CutTree(w, f, heads, at, k, p);
    KeptDistinct(f, at, k, k + 1);
    var ids := HeldBy(f, at, k);
    assert ids[0..0 + |ids|] == ids;
  }

  /** A tree numbered 1 to n has n + 1 sections. */
  lemma TreeSize(t: seq<Section>, m: Forest)
    requires Tree(t, m) && Ids(m) == Range(1, |Ids(m)|)
    ensures |t| == |Ids(m)| + 1
  {
    RangeNumbers(1, |Ids(m)|);
    var ids := Ids(m);
    assert |t| in ids <==> 1 <= |t| < |t|;
    assert |ids| + 1 in ids <==> 1 <= |ids| + 1 < |t|;
  }

  lemma RestoredPart(
      w: seq<Section>, parts: seq<Part>, shapes: seq<Shape>, f: Forest, heads: set<nat>, at: Places, sh: Shift,
      k: nat, open: seq<At>, t: seq<Section>, s: Shape)
    requires k < |parts| == |shapes| && s == shapes[k] && Restored(parts, shapes, f, at, k, open, t)
    requires Ready(f, at, heads) && LeavesFirst(f) && HoldsSome(f, at, k) && Tree(w, f) && Ids(f) == Range(1, |w| - 1)
    requires (forall m: Member :: Sorted(Row(at, m))) && Counted(parts, at) && IsCut(w, f, heads, at, k, parts[k])
    requires ShapeOf(parts[k], k, |open|) == Ok(s) && sh.k == k && sh.secBase == |t| && sh.secDrop == SecDrop(s)
    requires sh.ptr == BasesTo(parts, k)
    requires k == 0 ==> open == []
    ensures var e := Keep(f, at, k, k + 1);
            var loc := LocForest(HeldBy(f, at, k), at, k, e);
            && Tree(parts[k].sections, loc) && loc != [] && Fits(parts[k], s, |open|, loc) && !s.Moved?
            && |open| <= |Path(Keep(f, at, 0, k))|
            && Joined(Keep(f, at, 0, k), loc, s, |open|, sh) == Keep(f, at, 0, k + 1)
  {
    hide *;
    var m, e, ids := Keep(f, at, 0, k), Keep(f, at, k, k + 1), HeldBy(f, at, k);
    var loc := LocForest(ids, at, k, e);
    RestoredIs(parts, shapes, f, at, k, open, t);
    SomeHeld(f, at, k, ids);
    CutTree(w, f, heads, at, k, parts[k]);
    CutHolds(w, f, heads, at, k, parts[k]);
    CutShapes(parts[k], f, heads, at, k, ids, |open|);
    PartParts(parts[k], loc);
    ShapeFits(parts[k], k, |open|, loc);
    var rest := NewIds(f, at, heads, k, |w| - 1);
    KeptDistinctOf(f, at, heads, k);
    ShapeMeets(s, m, e, |open|);
    FoldsMany(s, m, e, |open|);
    TreeSize(t, m);
    NewIdsLand(sh, ids, Firsts(e, Meet(m, e)), rest);
    LeavesAllLand(f, at, k, parts, sh);
    PeelNested(e, Meet(m, e));
    JoinedGlues(m, e, s, sh, ids, at, k, |open|);
  }

  lemma RestoredIs(
      parts: seq<Part>, shapes: seq<Shape>, f: Forest, at: Places, k: nat, open: seq<At>, t: seq<Section>)
    requires k <= |parts| == |shapes| && Restored(parts, shapes, f, at, k, open, t)
    ensures Placed(parts, shapes, open) && |t| == SecsTo(parts, shapes, k)
    ensures Tree(t, Keep(f, at, 0, k)) && OpenIn(t, Keep(f, at, 0, k), WhereAll(parts, shapes, open))
    ensures |open| == |Path(Keep(f, at, 0, k))|
  {}

  lemma SomeHeld(f: Forest, at: Places, k: nat, ids: seq<nat>)
    requires HoldsSome(f, at, k)
    ensures Keep(f, at, k, k + 1) != [] && LocForest(ids, at, k, Keep(f, at, k, k + 1)) != []
    ensures HeldBy(f, at, k) == Ids(Keep(f, at, k, k + 1))
  {}

  lemma KeptDistinctOf(f: Forest, at: Places, heads: set<nat>, k: nat)
    requires Ready(f, at, heads)
    ensures Distinct(Ids(Keep(f, at, k, k + 1)))
  {
    KeptDistinct(f, at, k, k + 1);
  }

  lemma FoldsMany(s: Shape, m: Forest, e: Forest, depth: nat)
    requires FoldsMeeting(s, m, e, depth)
    ensures SecDrop(s) == Meet(m, e)
  {}

  lemma StepIs(
      parts: seq<Part>, shapes: seq<Shape>, sep: nat, k: nat,
      open: seq<At>, t: seq<Section>, open': seq<At>, t': seq<Section>)
    requires k < |parts| == |shapes| && Placed(parts, shapes, open) && parts[k].sections != []
    requires Step(parts, shapes, sep, k, open, t, open', t') && |t| == SecsTo(parts, shapes, k)
    ensures var sh := ShiftOf(parts, shapes, sep, k);
            && sh.k == k && sh.secBase == |t| && sh.secDrop == SecDrop(shapes[k]) && sh.ptr == BasesTo(parts, k)
            && sh.prevEnd <= sh.start
            && ShapeOf(parts[k], k, |open|) == Ok(shapes[k]) && open' == NextOpen(parts[k], k, open, shapes[k])
            && t' == AddPart(t, WhereAll(parts, shapes, open), parts[k], shapes[k], sh)
            && |t'| == SecsTo(parts, shapes, k + 1)
  {
    hide ShapeOf, NextOpen, BasesTo;
  }

  /** What is merged of the first parts is what they hold of the whole, in its own numbering. */
  lemma RestoredStep(
      w: seq<Section>, parts: seq<Part>, shapes: seq<Shape>, sep: nat, f: Forest, heads: set<nat>, at: Places, k: nat,
      open: seq<At>, t: seq<Section>, open': seq<At>, t': seq<Section>)
    requires k < |parts| == |shapes| && Cuttable(w, f, heads, at, |parts|) && CutInto(w, f, heads, at, parts)
    requires Restored(parts, shapes, f, at, k, open, t) && Placed(parts, shapes, open) && (k == 0 ==> open == [])
    requires Step(parts, shapes, sep, k, open, t, open', t')
    ensures Restored(parts, shapes, f, at, k + 1, open', t')
  {
    hide *;
    var p, s, sh := parts[k], shapes[k], ShiftOf(parts, shapes, sep, k);
    CuttableIs(w, f, heads, at, parts, k);
    RestoredIs(parts, shapes, f, at, k, open, t);
    CutTree(w, f, heads, at, k, p);
    CutHolds(w, f, heads, at, k, p);
    var m, loc := Keep(f, at, 0, k), LocForest(HeldBy(f, at, k), at, k, Keep(f, at, k, k + 1));
    PartParts(p, loc);
    StepIs(parts, shapes, sep, k, open, t, open', t');
    RestoredPart(w, parts, shapes, f, heads, at, sh, k, open, t, s);
    OpenSize(t, m, WhereAll(parts, shapes, open), open);
    StepTree(t, WhereAll(parts, shapes, open), m, p, loc, s, sh);
    AllOnPath(p, loc);
    NextOpenIn(parts, shapes, t, open, m, loc, sh);
    RestoredFrom(parts, shapes, f, at, k + 1, open', t');
  }

  lemma OpenSize(t: seq<Section>, m: Forest, ids: seq<nat>, open: seq<At>)
    requires OpenIn(t, m, ids) && |ids| == |open|
    ensures |open| <= |Path(m)|
  {}

  lemma RestoredFrom(
      parts: seq<Part>, shapes: seq<Shape>, f: Forest, at: Places, k: nat, open: seq<At>, t: seq<Section>)
    requires k <= |parts| == |shapes| && Placed(parts, shapes, open) && |t| == SecsTo(parts, shapes, k)
    requires Tree(t, Keep(f, at, 0, k)) && OpenIn(t, Keep(f, at, 0, k), WhereAll(parts, shapes, open))
    requires |open| == |Path(Keep(f, at, 0, k))|
    ensures Restored(parts, shapes, f, at, k, open, t)
  {}

  lemma CuttableIs(w: seq<Section>, f: Forest, heads: set<nat>, at: Places, parts: seq<Part>, k: nat)
    requires Cuttable(w, f, heads, at, |parts|) && CutInto(w, f, heads, at, parts) && k < |parts|
    ensures Tree(w, f) && Ids(f) == Range(1, |w| - 1) && Ready(f, at, heads) && LeavesFirst(f)
    ensures forall m: Member :: Sorted(Row(at, m))
    ensures HoldsSome(f, at, k) && IsCut(w, f, heads, at, k, parts[k]) && Counted(parts, at)
  {
    forall j, m: Member | 0 <= j < |parts| ensures Count(parts[j], m) == CountOf(Row(at, m), j, |Row(at, m)|) {
      assert IsCut(w, f, heads, at, j, parts[j]);
    }
  }

  lemma {:induction false} RestoredAll(
      w: seq<Section>, parts: seq<Part>, shapes: seq<Shape>, sep: nat, f: Forest, heads: set<nat>, at: Places, k: nat)
    requires k <= |parts| == |shapes| && PlanTo(parts, k).Ok? && Planned(parts, shapes, k)
    requires Cuttable(w, f, heads, at, |parts|) && CutInto(w, f, heads, at, parts)
    ensures Restored(parts, shapes, f, at, k, Open(parts, k), TableTo(parts, shapes, sep, k))
    decreases k
  {
    hide *;
    if k == 0 {
      NothingRestored(w, parts, shapes, sep, f, heads, at);
    } else {
      Stepped(parts, shapes, sep, k);
      RestoredAll(w, parts, shapes, sep, f, heads, at, k - 1);
      NothingOpenYet(parts);
      RestoredStep(w, parts, shapes, sep, f, heads, at, k - 1, Open(parts, k - 1), TableTo(parts, shapes, sep, k - 1),
                   Open(parts, k), TableTo(parts, shapes, sep, k));
    }
  }

  lemma NothingOpenYet(parts: seq<Part>)
    ensures PlanTo(parts, 0).Ok? && Open(parts, 0) == []
  {}

  lemma NothingRestored(
      w: seq<Section>, parts: seq<Part>, shapes: seq<Shape>, sep: nat, f: Forest, heads: set<nat>, at: Places)
    requires |parts| == |shapes| && Cuttable(w, f, heads, at, |parts|)
    ensures Restored(parts, shapes, f, at, 0, Open(parts, 0), TableTo(parts, shapes, sep, 0))
  {
    KeptNone(f, at, 0, 0);
  }

  /** Two tables of one tree hold the same elements. */
  lemma {:induction false} SameElems(a: seq<Section>, b: seq<Section>, g: Forest, i: nat)
    requires Reps(a, g) && Reps(b, g) && i in Ids(g)
    ensures i < |a| && i < |b| && Elems(a[i]) == Elems(b[i])
    decreases g
  {
    if i in Ids(g[1..]) {
      SameElems(a, b, g[1..], i);
    } else {
      assert i in ItemIds(g[0]);
      if i != g[0].i {
        assert i in Ids(g[0].kids);
        SameElems(a, b, g[0].kids, i);
      }
    }
  }

  lemma SameTables(a: seq<Section>, b: seq<Section>, f: Forest)
    requires Tree(a, f) && Tree(b, f) && Ids(f) == Range(1, |Ids(f)|)
    ensures |a| == |b| && forall i :: 0 <= i < |a| ==> Elems(a[i]) == Elems(b[i])
  {
    TreeSize(a, f);
    TreeSize(b, f);
    forall i | 0 <= i < |a| ensures Elems(a[i]) == Elems(b[i]) {
      if i > 0 {
        assert i in Ids(f);
        SameElems(a, b, f, i);
      }
    }
  }

  /**
   * The merge inverts the cut: cut anywhere between its pages and merged again, a whole result's
   * sections come back, each with the elements it had, under the number it had.
   */
  lemma MergeInvertsCut(
      w: seq<Section>, parts: seq<Part>, shapes: seq<Shape>, sep: nat, f: Forest, heads: set<nat>, at: Places)
    requires |parts| == |shapes| && PlanTo(parts, |parts|).Ok? && Planned(parts, shapes, |parts|)
    requires Cuttable(w, f, heads, at, |parts|) && CutInto(w, f, heads, at, parts)
    ensures |TableTo(parts, shapes, sep, |parts|)| == |w|
    ensures forall i :: 0 <= i < |w| ==> Elems(TableTo(parts, shapes, sep, |parts|)[i]) == Elems(w[i])
  {
    var n := |parts|;
    RestoredAll(w, parts, shapes, sep, f, heads, at, n);
    hide TableTo, PlanTo, Planned, CutInto, OpenIn, Reps, SecsTo, Leaves, Ids, Keep, LeavesFirst, Sorted;
    KeepAll(f, at, heads, 0, n);
    RangeSize(1, |w| - 1);
    SameTables(TableTo(parts, shapes, sep, n), w, f);
  }

  lemma RangeSize(lo: nat, n: nat)
    ensures |Range(lo, n)| == n
  {}
}
