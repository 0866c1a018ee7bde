/**
 * Exactly when the merged sections keep the document's order (internal/merge/continue.go:228-284): for any parts
 * whose sections are trees.
 */
module Orderly {
  import opened Lists
  import opened Sections
  import opened Forest
  import opened Lead
  import opened Renumber
  import opened Fold
  import opened Incremental
  import opened LeftOpen
  import opened Document
  import opened Closing
  import opened Grafting
  import opened GraftOrder
  import opened AnyTree

  /** The part's pointers to items name some of its own. */
  ghost predicate Holding(p: Part, f: Forest) {
    forall n :: 0 <= n < |Leaves(f)| ==> HasItem(p, Leaves(f)[n])
  }

  predicate HasItem(p: Part, e: Elem) { e.Leaf? && e.n < Count(p, e.m) }

  ghost predicate AllHold(parts: seq<Part>, forests: seq<Forest>) {
    |forests| == |parts| && forall k :: 0 <= k < |parts| ==> Holding(parts[k], forests[k])
  }

  /** A pointer to an item of an earlier part. */
  predicate Old(b: Bases, e: Elem) { e.Leaf? && e.n < Base(b, e.m) }

  function OldTo(parts: seq<Part>, k: nat): Elem -> bool
    requires k <= |parts|
  {
    var b := BasesTo(parts, k);
    e => Old(b, e)
  }

  predicate CanAdd(f: Forest, s: Shape, depth: nat) {
    (s.Run? || s.Moved? ==> depth > 0) && (s.Chain? ==> s.n <= depth) && (s.Run? ==> s.n <= |f|)
  }

  /** The part puts a leaf at depth e of the open path, 0 being the root. */
  predicate Puts(f: Forest, s: Shape, depth: nat, e: nat) {
    CanAdd(f, s, depth) && e <= depth && Leaves(Adds(f, s, depth)[e]) != []
  }

  /** How many of the sections left open after part k are of earlier parts. */
  function Elder(next: seq<At>, k: nat): (n: nat)
    ensures n <= |next|
    decreases |next|
  {
    if next == [] || next[|next| - 1].k != k then |next| else Elder(next[..|next| - 1], k)
  }

  /**
   * Which of the sections left open after the first j parts are shut: a leaf has come behind them. A section of an
   * earlier part is shut once a part puts a leaf at a lesser depth; a part's own is as the one above it.
   */
  function Shut(parts: seq<Part>, shapes: seq<Shape>, forests: seq<Forest>, j: nat): (r: seq<bool>)
    requires j <= |parts| == |shapes| == |forests| && PlanTo(parts, j).Ok?
    ensures |r| == |Open(parts, j)|
    decreases j
  {
    if j == 0 then []
    else if parts[j - 1].sections == [] then Shut(parts, shapes, forests, j - 1)
    else
      var was, next := Shut(parts, shapes, forests, j - 1), Open(parts, j);
      seq(|next|, d requires 0 <= d < |next| => ShutNext(was, forests[j - 1], shapes[j - 1], Elder(next, j - 1), d))
  }

  /** Whether the d-th is, n of them being of earlier parts. */
  predicate ShutNext(was: seq<bool>, f: Forest, s: Shape, n: nat, d: nat) {
    var e := if d < n then d else n - 1;
    0 <= e < |was| && (was[e] || exists c: nat :: c <= e && Puts(f, s, |was|, c))
  }

  /** Part k folds a leaf into the d-th section left open before it. */
  predicate FoldsLeaf(parts: seq<Part>, shapes: seq<Shape>, forests: seq<Forest>, k: nat, d: nat)
    requires k < |parts| == |shapes| == |forests| && PlanTo(parts, k).Ok?
  {
    parts[k].sections != [] && d < |Open(parts, k)| && Puts(forests[k], shapes[k], |Open(parts, k)|, d + 1)
  }

  /** Part k folds no leaf into a section that is shut. */
  predicate FoldsInOrder(parts: seq<Part>, shapes: seq<Shape>, forests: seq<Forest>, k: nat)
    requires k < |parts| == |shapes| == |forests| && PlanTo(parts, k).Ok?
  {
    forall d :: 0 <= d < |Open(parts, k)| && FoldsLeaf(parts, shapes, forests, k, d) ==>
        !Shut(parts, shapes, forests, k)[d]
  }

  /** Of the first j parts none does. */
  predicate OrderlyTo(parts: seq<Part>, shapes: seq<Shape>, forests: seq<Forest>, j: nat)
    requires j <= |parts| == |shapes| == |forests|
    decreases j
  {
    j == 0 || (
      && OrderlyTo(parts, shapes, forests, j - 1)
      && PlanTo(parts, j - 1).Ok? && FoldsInOrder(parts, shapes, forests, j - 1))
  }

  // One step.

  lemma {:induction false} ElderIs(ats: seq<At>, k: nat, n: nat, rest: seq<nat>)
    requires n <= |ats| && Earlier(ats, k)
    ensures Elder(ats[..n] + Ats(k, rest), k) == n
    decreases |rest|
  {
    var next := ats[..n] + Ats(k, rest);
    if rest == [] {
      assert next == ats[..n];
    } else {
      var r := |rest| - 1;
      assert next[..|next| - 1] == ats[..n] + Ats(k, rest[..r]);
      ElderIs(ats, k, n, rest[..r]);
    }
  }

  /** What is behind each open section agrees with what the plan knows. */
  ghost predicate Known(m: Forest, open: seq<nat>, shut: seq<bool>) {
    && Along(m, open) && |shut| == |open|
    && forall d :: 0 <= d < |open| ==> (Behind(m, open, d) == [] <==> !shut[d])
  }

  lemma KnownAt(m: Forest, open: seq<nat>, shut: seq<bool>, d: nat)
    requires Known(m, open, shut) && d < |open|
    ensures Along(m, open) && |shut| == |open| && (Behind(m, open, d) == [] <==> !shut[d])
  {}

  lemma {:induction false} RenNoLeaves(sh: Shift, f: Forest)
    ensures Leaves(RenForest(sh, f)) == [] <==> Leaves(f) == []
  {
    RenContents(sh, f);
    hide Leaves, RenForest, RenElems;
    assert |RenElems(sh, Leaves(f))| == |Leaves(f)|;
  }

  lemma PutsIs(f: Forest, s: Shape, depth: nat, sh: Shift, e: nat)
    requires CanAdd(f, s, depth) && e <= depth
    ensures Puts(f, s, depth, e) <==> Leaves(RenAdds(sh, Adds(f, s, depth))[e]) != []
  {
    hide *;
    CanAddIs(f, s, depth);
    RenNoLeaves(sh, Adds(f, s, depth)[e]);
    PutsAt(f, s, depth, e);
  }

  lemma CanAddIs(f: Forest, s: Shape, depth: nat)
    ensures CanAdd(f, s, depth) <==>
              (s.Run? || s.Moved? ==> depth > 0) && (s.Chain? ==> s.n <= depth) && (s.Run? ==> s.n <= |f|)
  {}

  lemma PutsAt(f: Forest, s: Shape, depth: nat, e: nat)
    requires CanAdd(f, s, depth) && e <= depth
    ensures Puts(f, s, depth, e) <==> Leaves(Adds(f, s, depth)[e]) != []
  {}

  /** Putting leaves at depths up to d, in the part's terms and in the merged tree's. */
  lemma PutsUpTo(f: Forest, s: Shape, depth: nat, sh: Shift, d: nat)
    requires CanAdd(f, s, depth) && d <= depth
    ensures (exists c: nat :: c <= d && Puts(f, s, depth, c))
      <==> !(forall e :: 0 <= e <= d ==> Leaves(RenAdds(sh, Adds(f, s, depth))[e]) == [])
  {
    var adds := RenAdds(sh, Adds(f, s, depth));
    hide *;
    CanAddIs(f, s, depth);
    if c: nat :| c <= d && Puts(f, s, depth, c) {
      PutsIs(f, s, depth, sh, c);
    }
    if e :| 0 <= e <= d && Leaves(adds[e]) != [] {
      PutsIs(f, s, depth, sh, e);
    }
  }

  /** After a graft the plan still knows what is behind the sections left open. */
  lemma KnownNext(
      m: Forest, open: seq<nat>, shut: seq<bool>, f: Forest, s: Shape, sh: Shift, n: nat, rest: seq<nat>,
      next: seq<bool>)
    requires Known(m, open, shut) && CanAdd(f, s, |open|) && n <= |open|
    requires Along(RenAdds(sh, Adds(f, s, |open|))[n], rest)
    requires rest != [] ==>
               && rest == Path(RenAdds(sh, Adds(f, s, |open|))[n]) && rest[0] !in Ids(m)
               && Distinct(Ids(RenAdds(sh, Adds(f, s, |open|))[n]))
    requires |next| == n + |rest| && forall d :: 0 <= d < |next| ==> next[d] == ShutNext(shut, f, s, n, d)
    ensures Along(m, open) && Known(Merged(m, open, f, s, sh), open[..n] + rest, next)
  {
    hide *;
    CanAddIs(f, s, |open|);
    KnownLength(m, open, shut);
    var adds := RenAdds(sh, Adds(f, s, |open|));
    MergedIs(m, open, f, s, sh);
    var g, chain := Merged(m, open, f, s, sh), open[..n] + rest;
    GraftedAlong(m, open, adds, n, rest);
    forall d | 0 <= d < n ensures Behind(g, chain, d) == [] <==> !next[d] {
      KnownAt(m, open, shut, d);
      BehindOld(m, open, adds, n, rest, d);
      PutsUpTo(f, s, |open|, sh, d);
      ShutElder(shut, f, s, n, d);
    }
    forall d | n <= d < |chain| ensures Behind(g, chain, d) == [] <==> !next[d] {
      BehindNew(m, open, adds, n, rest, d - n);
      PathBehind(adds[n], d - n);
      ShutOwn(shut, f, s, n, d);
    }
    KnownFrom(g, chain, next);
  }

  lemma KnownLength(m: Forest, open: seq<nat>, shut: seq<bool>)
    requires Known(m, open, shut)
    ensures Along(m, open) && |shut| == |open|
  {}

  lemma KnownFrom(m: Forest, open: seq<nat>, shut: seq<bool>)
    requires Along(m, open) && |shut| == |open|
    requires forall d :: 0 <= d < |open| ==> (Behind(m, open, d) == [] <==> !shut[d])
    ensures Known(m, open, shut)
  {}

  lemma ShutElder(was: seq<bool>, f: Forest, s: Shape, n: nat, d: nat)
    requires d < n <= |was|
    ensures ShutNext(was, f, s, n, d) <==> was[d] || exists c: nat :: c <= d && Puts(f, s, |was|, c)
  {}

  lemma ShutOwn(was: seq<bool>, f: Forest, s: Shape, n: nat, d: nat)
    requires n <= d && n <= |was|
    ensures ShutNext(was, f, s, n, d) <==> n > 0 && ShutNext(was, f, s, n, n - 1)
  {}

  lemma {:induction false} RenNew(sh: Shift, es: seq<Elem>, old': Elem -> bool)
    requires forall e :: old'(e) <==> Old(sh.ptr, e)
    requires forall n :: 0 <= n < |es| ==> es[n].Leaf?
    ensures NoneOld(RenElems(sh, es), old')
    decreases |es|
  {
    if es != [] {
      RenNew(sh, es[1..], old');
      assert RenElems(sh, es) == [RenElem(sh, es[0])] + RenElems(sh, es[1..]);
    }
  }

  /** Putting no leaf where leaves come after is, in the plan's terms, folding none into a shut section. */
  lemma InOrderIs(
      parts: seq<Part>, shapes: seq<Shape>, forests: seq<Forest>, k: nat, m: Forest, open: seq<nat>, sh: Shift)
    requires k < |parts| == |shapes| == |forests| && PlanTo(parts, k).Ok? && parts[k].sections != []
    requires |open| == |Open(parts, k)| && Known(m, open, Shut(parts, shapes, forests, k))
    requires CanAdd(forests[k], shapes[k], |open|)
    ensures Along(m, open)
    ensures InOrder(m, open, RenAdds(sh, Adds(forests[k], shapes[k], |open|)))
      <==> FoldsInOrder(parts, shapes, forests, k)
  {
    hide *;
    var f, s, shut := forests[k], shapes[k], Shut(parts, shapes, forests, k);
    CanAddIs(f, s, |open|);
    KnownLength(m, open, shut);
    var adds := RenAdds(sh, Adds(f, s, |open|));
    if InOrder(m, open, adds) {
      forall d | 0 <= d < |open| && FoldsLeaf(parts, shapes, forests, k, d) ensures !shut[d] {
        LeafFolded(parts, shapes, forests, k, d);
        PutsIs(f, s, |open|, sh, d + 1);
        OrderAt(m, open, adds, d);
        KnownAt(m, open, shut, d);
      }
      FoldsFrom(parts, shapes, forests, k);
    }
    if FoldsInOrder(parts, shapes, forests, k) {
      forall d | 0 <= d < |open| && Leaves(adds[d + 1]) != [] ensures Behind(m, open, d) == [] {
        LeafFolded(parts, shapes, forests, k, d);
        FoldsAt(parts, shapes, forests, k, d);
        PutsIs(f, s, |open|, sh, d + 1);
        KnownAt(m, open, shut, d);
      }
      OrderFrom(m, open, adds);
    }
  }

  lemma FoldsAt(parts: seq<Part>, shapes: seq<Shape>, forests: seq<Forest>, k: nat, d: nat)
    requires k < |parts| == |shapes| == |forests| && PlanTo(parts, k).Ok? && d < |Open(parts, k)|
    requires FoldsInOrder(parts, shapes, forests, k)
    ensures FoldsLeaf(parts, shapes, forests, k, d) ==> !Shut(parts, shapes, forests, k)[d]
  {
    hide FoldsLeaf, Shut, Open, PlanTo;
  }

  lemma FoldsFrom(parts: seq<Part>, shapes: seq<Shape>, forests: seq<Forest>, k: nat)
    requires k < |parts| == |shapes| == |forests| && PlanTo(parts, k).Ok?
    requires forall d :: 0 <= d < |Open(parts, k)| && FoldsLeaf(parts, shapes, forests, k, d) ==>
               !Shut(parts, shapes, forests, k)[d]
    ensures FoldsInOrder(parts, shapes, forests, k)
  {
    hide FoldsLeaf, Shut, Open, PlanTo;
  }

  lemma LeafFolded(parts: seq<Part>, shapes: seq<Shape>, forests: seq<Forest>, k: nat, d: nat)
    requires k < |parts| == |shapes| == |forests| && PlanTo(parts, k).Ok? && parts[k].sections != []
    requires d < |Open(parts, k)|
    ensures FoldsLeaf(parts, shapes, forests, k, d) <==> Puts(forests[k], shapes[k], |Open(parts, k)|, d + 1)
  {
    hide Puts, Open, PlanTo;
  }

  lemma OldIs(parts: seq<Part>, shapes: seq<Shape>, sep: nat, k: nat)
    requires k < |parts| == |shapes|
    ensures forall e :: OldTo(parts, k)(e) <==> Old(ShiftOf(parts, shapes, sep, k).ptr, e)
  {}

  lemma {:induction false} RenWithin(p: Part, sh: Shift, b: Bases, es: seq<Elem>)
    requires forall n :: 0 <= n < |es| ==> HasItem(p, es[n])
    requires forall m: Member :: Base(b, m) == Base(sh.ptr, m) + Count(p, m)
    ensures forall e :: e in RenElems(sh, es) ==> Old(b, e)
    decreases |es|
  {
    if es != [] {
      RenWithin(p, sh, b, es[1..]);
      assert RenElems(sh, es) == [RenElem(sh, es[0])] + RenElems(sh, es[1..]);
    }
  }

  lemma BasesNext(parts: seq<Part>, shapes: seq<Shape>, sep: nat, k: nat)
    requires k < |parts| == |shapes|
    ensures forall m: Member ::
              Base(BasesTo(parts, k + 1), m) == Base(ShiftOf(parts, shapes, sep, k).ptr, m) + Count(parts[k], m)
    ensures forall e :: OldTo(parts, k)(e) ==> OldTo(parts, k + 1)(e)
  {
    hide Count;
    assert forall m: Member :: Count(parts[k], m) == match m
      case Paragraphs => |parts[k].paragraphs|
      case Tables => |parts[k].tables|
      case Figures => |parts[k].figures|
      case KeyValuePairs => |parts[k].pairs| by { CountsAre(parts[k]); }
  }

  lemma OldToIs(parts: seq<Part>, k: nat, e: Elem)
    requires k <= |parts|
    ensures OldTo(parts, k)(e) <==> Old(BasesTo(parts, k), e)
  {}

  lemma CountsAre(p: Part)
    ensures forall m: Member :: Count(p, m) == match m
      case Paragraphs => |p.paragraphs|
      case Tables => |p.tables|
      case Figures => |p.figures|
      case KeyValuePairs => |p.pairs|
  {}

  /** The merged leaves are all of the parts so far. */
  lemma OldNext(
      parts: seq<Part>, shapes: seq<Shape>, sep: nat, k: nat, before: seq<Elem>, own: seq<Elem>, after: seq<Elem>)
    requires k < |parts| == |shapes| && AllOld(before, OldTo(parts, k))
    requires forall n :: 0 <= n < |own| ==> HasItem(parts[k], own[n])
    requires multiset(after) == multiset(before) + multiset(RenElems(ShiftOf(parts, shapes, sep, k), own))
    ensures AllOld(after, OldTo(parts, k + 1))
  {
    hide *;
    BasesNext(parts, shapes, sep, k);
    RenWithin(parts[k], ShiftOf(parts, shapes, sep, k), BasesTo(parts, k + 1), own);
    AllOldIs(before, OldTo(parts, k));
    var ren := RenElems(ShiftOf(parts, shapes, sep, k), own);
    forall i | 0 <= i < |after| ensures OldTo(parts, k + 1)(after[i]) {
      InOne(before, ren, after, i);
      OldToIs(parts, k + 1, after[i]);
    }
    AllOldFrom(after, OldTo(parts, k + 1));
  }

  lemma AllOldIs(s: seq<Elem>, was: Elem -> bool)
    requires AllOld(s, was)
    ensures forall e :: e in s ==> was(e)
  {}

  lemma AllOldFrom(s: seq<Elem>, was: Elem -> bool)
    requires forall i :: 0 <= i < |s| ==> was(s[i])
    ensures AllOld(s, was)
  {}

  lemma InOne(a: seq<Elem>, b: seq<Elem>, c: seq<Elem>, i: nat)
    requires i < |c| && multiset(c) == multiset(a) + multiset(b)
    ensures c[i] in a || c[i] in b
  {
    assert c[i] in multiset(c);
  }

  /** After k parts. */
  ghost predicate Follows(
      parts: seq<Part>, shapes: seq<Shape>, sep: nat, forests: seq<Forest>, k: nat, open: seq<At>, t: seq<Section>,
      m: Forest)
  {
    && k <= |parts| == |shapes| == |forests| && PlanTo(parts, k).Ok?
    && open == Open(parts, k) && Placed(parts, shapes, open) && Earlier(open, k)
    && |t| == SecsTo(parts, shapes, k) && Stands(t, m, WhereAll(parts, shapes, open))
    && Known(m, WhereAll(parts, shapes, open), Shut(parts, shapes, forests, k))
    && multiset(Leaves(m)) == multiset(LeavesTo(parts, shapes, sep, forests, k))
    && (AllHold(parts, forests) ==> AllOld(Leaves(m), OldTo(parts, k)))
    && Ordered(parts, shapes, sep, forests, k, m)
  }

  /** Folding in order keeps the order, and if no pointer strays nothing else does. */
  ghost predicate Ordered(parts: seq<Part>, shapes: seq<Shape>, sep: nat, forests: seq<Forest>, k: nat, m: Forest)
    requires k <= |parts| == |shapes| == |forests|
  {
    && (OrderlyTo(parts, shapes, forests, k) ==> Leaves(m) == LeavesTo(parts, shapes, sep, forests, k))
    && (AllHold(parts, forests) && Leaves(m) == LeavesTo(parts, shapes, sep, forests, k)
        ==> OrderlyTo(parts, shapes, forests, k))
  }

  lemma FollowsParts(
      parts: seq<Part>, shapes: seq<Shape>, sep: nat, forests: seq<Forest>, k: nat, open: seq<At>, t: seq<Section>,
      m: Forest)
    requires k <= |parts| == |shapes| == |forests| && PlanTo(parts, k).Ok?
    ensures Follows(parts, shapes, sep, forests, k, open, t, m) <==>
              && open == Open(parts, k) && Placed(parts, shapes, open) && Earlier(open, k)
              && |t| == SecsTo(parts, shapes, k) && Stands(t, m, WhereAll(parts, shapes, open))
              && Known(m, WhereAll(parts, shapes, open), Shut(parts, shapes, forests, k))
              && multiset(Leaves(m)) == multiset(LeavesTo(parts, shapes, sep, forests, k))
              && (AllHold(parts, forests) ==> AllOld(Leaves(m), OldTo(parts, k)))
              && Ordered(parts, shapes, sep, forests, k, m)
  {
    hide Placed, Earlier, Stands, Known, Leaves, LeavesTo, AllOld, AllHold, OldTo, Ordered, Shut, Open;
  }

  lemma StepParts(
      parts: seq<Part>, shapes: seq<Shape>, sep: nat, k: nat,
      open: seq<At>, t: seq<Section>, open': seq<At>, t': seq<Section>)
    requires k < |parts| == |shapes| && Placed(parts, shapes, open) && Step(parts, shapes, sep, k, open, t, open', t')
    ensures parts[k].sections == [] ==> shapes[k].Apart? && open' == open && t' == t
    ensures parts[k].sections != [] ==>
              && ShapeOf(parts[k], k, |open|) == Ok(shapes[k])
              && (shapes[k].Chain? ==> shapes[k].n <= |open|) && open' == NextOpen(parts[k], k, open, shapes[k])
              && t' == AddPart(t, WhereAll(parts, shapes, open), parts[k], shapes[k], ShiftOf(parts, shapes, sep, k))
  {}

  lemma TreeParts(p: Part, f: Forest)
    requires IsTree(p, f)
    ensures p.sections == [] ==> f == []
    ensures p.sections != [] ==> Tree(p.sections, f) && Reps(p.sections, f) && Top(f) == RootElems(p)
  {}

  lemma TreeAt(parts: seq<Part>, forests: seq<Forest>, k: nat)
    requires AllTrees(parts, forests) && k < |parts|
    ensures |forests| == |parts| && IsTree(parts[k], forests[k])
  {}

  lemma HoldAt(parts: seq<Part>, forests: seq<Forest>, k: nat)
    requires AllHold(parts, forests) && k < |parts|
    ensures |forests| == |parts| && Holding(parts[k], forests[k])
    ensures forall n :: 0 <= n < |Leaves(forests[k])| ==>
              HasItem(parts[k], Leaves(forests[k])[n]) && Leaves(forests[k])[n].Leaf?
  {}

  lemma LeavesNext(parts: seq<Part>, shapes: seq<Shape>, sep: nat, forests: seq<Forest>, k: nat)
    requires k < |parts| == |shapes| == |forests|
    ensures LeavesTo(parts, shapes, sep, forests, k + 1)
      == LeavesTo(parts, shapes, sep, forests, k) + RenElems(ShiftOf(parts, shapes, sep, k), Leaves(forests[k]))
  {}

  lemma OrderlyNext(parts: seq<Part>, shapes: seq<Shape>, forests: seq<Forest>, k: nat)
    requires k < |parts| == |shapes| == |forests| && PlanTo(parts, k).Ok?
    ensures OrderlyTo(parts, shapes, forests, k + 1)
      <==> OrderlyTo(parts, shapes, forests, k) && FoldsInOrder(parts, shapes, forests, k)
  {
    hide FoldsInOrder, PlanTo;
  }

  lemma ShutIs(parts: seq<Part>, shapes: seq<Shape>, forests: seq<Forest>, k: nat)
    requires k < |parts| == |shapes| == |forests| && PlanTo(parts, k).Ok? && PlanTo(parts, k + 1).Ok?
    ensures var was, now := Shut(parts, shapes, forests, k), Shut(parts, shapes, forests, k + 1);
            && (parts[k].sections == [] ==> now == was)
            && (parts[k].sections != [] ==>
                  |now| == |Open(parts, k + 1)|
                  && forall d :: 0 <= d < |now| ==>
                       now[d] == ShutNext(was, forests[k], shapes[k], Elder(Open(parts, k + 1), k), d))
  {
    hide ShutNext, Elder, ShapeOf, NextOpen;
  }

  /** The order after one part more, from the order before it. */
  lemma OrderStep(
      parts: seq<Part>, shapes: seq<Shape>, sep: nat, forests: seq<Forest>, k: nat, m: Forest, open: seq<nat>,
      adds: seq<Forest>)
    requires k < |parts| == |shapes| == |forests| && PlanTo(parts, k).Ok?
    requires |adds| == |open| + 1 && Along(m, open)
    requires AllHold(parts, forests) ==> AllOld(Leaves(m), OldTo(parts, k))
    requires multiset(Leaves(m)) == multiset(LeavesTo(parts, shapes, sep, forests, k))
    requires Leaves(Flat(adds)) == RenElems(ShiftOf(parts, shapes, sep, k), Leaves(forests[k]))
    requires InOrder(m, open, adds) <==> FoldsInOrder(parts, shapes, forests, k)
    requires Ordered(parts, shapes, sep, forests, k, m)
    ensures Ordered(parts, shapes, sep, forests, k + 1, Graft(m, open, adds))
  {
    hide *;
    LeavesNext(parts, shapes, sep, forests, k);
    OrderlyNext(parts, shapes, forests, k);
    OrderedIs(parts, shapes, sep, forests, k, m);
    OrderedIs(parts, shapes, sep, forests, k + 1, Graft(m, open, adds));
    if OrderlyTo(parts, shapes, forests, k + 1) { OrderKept(m, open, adds); }
    if AllHold(parts, forests) && Leaves(Graft(m, open, adds)) == LeavesTo(parts, shapes, sep, forests, k + 1) {
      OrderBack(parts, shapes, sep, forests, k, m, open, adds);
    }
  }

  lemma OrderedIs(parts: seq<Part>, shapes: seq<Shape>, sep: nat, forests: seq<Forest>, k: nat, m: Forest)
    requires k <= |parts| == |shapes| == |forests|
    ensures Ordered(parts, shapes, sep, forests, k, m) <==>
              && (OrderlyTo(parts, shapes, forests, k) ==> Leaves(m) == LeavesTo(parts, shapes, sep, forests, k))
              && (AllHold(parts, forests) && Leaves(m) == LeavesTo(parts, shapes, sep, forests, k)
                  ==> OrderlyTo(parts, shapes, forests, k))
  {}

  /** In order after part k: before it, and part k folded in order. */
  lemma OrderBack(
      parts: seq<Part>, shapes: seq<Shape>, sep: nat, forests: seq<Forest>, k: nat, m: Forest, open: seq<nat>,
      adds: seq<Forest>)
    requires k < |parts| == |shapes| == |forests| && PlanTo(parts, k).Ok? && AllHold(parts, forests)
    requires |adds| == |open| + 1 && Along(m, open)
    requires AllOld(Leaves(m), OldTo(parts, k))
    requires multiset(Leaves(m)) == multiset(LeavesTo(parts, shapes, sep, forests, k))
    requires Leaves(Flat(adds)) == RenElems(ShiftOf(parts, shapes, sep, k), Leaves(forests[k]))
    requires Leaves(Graft(m, open, adds)) == LeavesTo(parts, shapes, sep, forests, k + 1)
    ensures Leaves(m) == LeavesTo(parts, shapes, sep, forests, k) && InOrder(m, open, adds)
  {
    hide *;
    var was, ren := OldTo(parts, k), RenElems(ShiftOf(parts, shapes, sep, k), Leaves(forests[k]));
    HoldAt(parts, forests, k);
    OldIs(parts, shapes, sep, k);
    RenNew(ShiftOf(parts, shapes, sep, k), Leaves(forests[k]), was);
    FlatNew(adds, was);
    OldStay(m, open, adds, was);
    OrderExactly(m, open, adds, was);
    LeavesNext(parts, shapes, sep, forests, k);
    var before := LeavesTo(parts, shapes, sep, forests, k);
    OldBag(Leaves(m), before, was);
    OldAll(before, was);
    OldAll(ren, was);
    OldJoin(before, ren, was);
    NothingMore(before, OldOnes(ren, was));
  }

  lemma OldBag(a: seq<Elem>, b: seq<Elem>, was: Elem -> bool)
    requires AllOld(a, was) && multiset(a) == multiset(b)
    ensures AllOld(b, was)
  {
    forall i | 0 <= i < |b| ensures was(b[i]) {
      assert b[i] in multiset(a);
    }
  }

  lemma FollowsNext(
      parts: seq<Part>, shapes: seq<Shape>, sep: nat, forests: seq<Forest>, k: nat,
      open: seq<At>, t: seq<Section>, open': seq<At>, t': seq<Section>, m: Forest) returns (m': Forest)
    requires k < |parts| == |shapes| && AllTrees(parts, forests) && Placed(parts, shapes, open)
    requires |forests| == |parts| && PlanTo(parts, k).Ok? && PlanTo(parts, k + 1).Ok? && open' == Open(parts, k + 1)
    requires Step(parts, shapes, sep, k, open, t, open', t') && Follows(parts, shapes, sep, forests, k, open, t, m)
    requires parts[k].sections != []
    ensures Follows(parts, shapes, sep, forests, k + 1, open', t', m')
  {
    hide *;
    var p, f, s, sh, ids := parts[k], forests[k], shapes[k], ShiftOf(parts, shapes, sep, k),
                            WhereAll(parts, shapes, open);
    FollowsParts(parts, shapes, sep, forests, k, open, t, m);
    StandsParts(t, m, ids);
    StepParts(parts, shapes, sep, k, open, t, open', t');
    TreeAt(parts, forests, k);
    TreeParts(p, f);
    ShapeFits(p, k, |open|, f);
    FitsBounds(p, s, |open|, f);
    CanAddIs(f, s, |open|);
    ShiftNumbers(parts, shapes, sep, k);
    AnyStep(t, ids, m, p, f, s, sh);
    MergedIs(m, ids, f, s, sh);
    m' := Merged(m, ids, f, s, sh);
    var n, rest := WhatStays(p, k, open, f, s);
    StillStands(parts, shapes, t, open, m, f, sh, n, rest);
    ShutIs(parts, shapes, forests, k);
    ElderIs(open, k, n, rest);
    AtsLength(k, rest);
    KnownNext(m, ids, Shut(parts, shapes, forests, k), f, s, sh, n, RenIds(sh, rest),
              Shut(parts, shapes, forests, k + 1));
    NextOpenEarlier(p, k, open, s);
    NewNumbers(t, m, p, f, s, |open|, sh);
    InOrderIs(parts, shapes, forests, k, m, ids, sh);
    OrderStep(parts, shapes, sep, forests, k, m, ids, RenAdds(sh, Adds(f, s, |open|)));
    LeavesNext(parts, shapes, sep, forests, k);
    BagJoin(LeavesTo(parts, shapes, sep, forests, k), RenElems(sh, Leaves(f)));
    if AllHold(parts, forests) {
      HoldAt(parts, forests, k);
      OldNext(parts, shapes, sep, k, Leaves(m), Leaves(f), Leaves(m'));
    }
    AddedSize(t, ids, p, s, sh);
    SecsNext(parts, shapes, k);
    FollowsParts(parts, shapes, sep, forests, k + 1, open', t', m');
  }

  lemma AtsLength(k: nat, rest: seq<nat>)
    ensures |Ats(k, rest)| == |rest|
  {}

  lemma SecsNext(parts: seq<Part>, shapes: seq<Shape>, k: nat)
    requires k < |parts| && k < |shapes|
    ensures SecsTo(parts, shapes, k + 1) == SecsTo(parts, shapes, k) + Kept(parts[k], shapes[k])
  {}

  lemma ShiftNumbers(parts: seq<Part>, shapes: seq<Shape>, sep: nat, k: nat)
    requires k < |parts| == |shapes|
    ensures var sh := ShiftOf(parts, shapes, sep, k);
            && sh.k == k && sh.prevEnd <= sh.start && sh.secBase == SecsTo(parts, shapes, k)
            && sh.secDrop == SecDrop(shapes[k])
  {}

  /** A part without sections changes nothing. */
  lemma FollowsSame(
      parts: seq<Part>, shapes: seq<Shape>, sep: nat, forests: seq<Forest>, k: nat,
      open: seq<At>, t: seq<Section>, open': seq<At>, t': seq<Section>, m: Forest)
    requires k < |parts| == |shapes| && AllTrees(parts, forests) && Placed(parts, shapes, open)
    requires |forests| == |parts| && PlanTo(parts, k).Ok? && PlanTo(parts, k + 1).Ok? && open' == Open(parts, k + 1)
    requires Step(parts, shapes, sep, k, open, t, open', t') && Follows(parts, shapes, sep, forests, k, open, t, m)
    requires parts[k].sections == []
    ensures Follows(parts, shapes, sep, forests, k + 1, open', t', m)
  {
    hide *;
    FollowsParts(parts, shapes, sep, forests, k, open, t, m);
    StepParts(parts, shapes, sep, k, open, t, open', t');
    TreeAt(parts, forests, k);
    TreeParts(parts[k], forests[k]);
    ShutIs(parts, shapes, forests, k);
    LeavesNext(parts, shapes, sep, forests, k);
    NoLeaves(ShiftOf(parts, shapes, sep, k));
    NothingMore(LeavesTo(parts, shapes, sep, forests, k), RenElems(ShiftOf(parts, shapes, sep, k), Leaves(forests[k])));
    OrderlyNext(parts, shapes, forests, k);
    NoFolds(parts, shapes, forests, k);
    BasesNext(parts, shapes, sep, k);
    OrderedIs(parts, shapes, sep, forests, k, m);
    OrderedIs(parts, shapes, sep, forests, k + 1, m);
    if AllHold(parts, forests) { StillOld(parts, shapes, sep, k, Leaves(m)); }
    LaterToo(open, k);
    SecsNext(parts, shapes, k);
    NoneKept(parts[k], shapes[k]);
    FollowsParts(parts, shapes, sep, forests, k + 1, open', t', m);
  }

  lemma StillOld(parts: seq<Part>, shapes: seq<Shape>, sep: nat, k: nat, s: seq<Elem>)
    requires k < |parts| == |shapes| && AllOld(s, OldTo(parts, k))
    ensures AllOld(s, OldTo(parts, k + 1))
  {
    hide *;
    BasesNext(parts, shapes, sep, k);
    AllOldIs(s, OldTo(parts, k));
    forall i | 0 <= i < |s| ensures OldTo(parts, k + 1)(s[i]) { assert s[i] in s; }
    AllOldFrom(s, OldTo(parts, k + 1));
  }

  lemma NoLeaves(sh: Shift)
    ensures RenElems(sh, Leaves([])) == []
  {}

  lemma NoFolds(parts: seq<Part>, shapes: seq<Shape>, forests: seq<Forest>, k: nat)
    requires k < |parts| == |shapes| == |forests| && PlanTo(parts, k).Ok? && parts[k].sections == []
    ensures FoldsInOrder(parts, shapes, forests, k)
  {}

  lemma NoneKept(p: Part, s: Shape)
    requires p.sections == []
    ensures Kept(p, s) == 0
  {}

  lemma NothingFollows(parts: seq<Part>, shapes: seq<Shape>, sep: nat, forests: seq<Forest>) returns (m: Forest)
    requires |parts| == |shapes| == |forests|
    ensures PlanTo(parts, 0).Ok?
    ensures Follows(parts, shapes, sep, forests, 0, Open(parts, 0), TableTo(parts, shapes, sep, 0), m)
  {
    m := [];
  }

  lemma {:induction false} FollowsAll(
      parts: seq<Part>, shapes: seq<Shape>, sep: nat, forests: seq<Forest>, j: nat) returns (m: Forest)
    requires j <= |parts| == |shapes| == |forests| && PlanTo(parts, j).Ok?
    requires Planned(parts, shapes, j) && AllTrees(parts, forests)
    ensures Follows(parts, shapes, sep, forests, j, Open(parts, j), TableTo(parts, shapes, sep, j), m)
    decreases j
  {
    hide *;
    if j == 0 {
      m := NothingFollows(parts, shapes, sep, forests);
    } else {
      Stepped(parts, shapes, sep, j);
      m := FollowsAll(parts, shapes, sep, forests, j - 1);
      var open, t := Open(parts, j - 1), TableTo(parts, shapes, sep, j - 1);
      if parts[j - 1].sections == [] {
        FollowsSame(parts, shapes, sep, forests, j - 1, open, t, Open(parts, j), TableTo(parts, shapes, sep, j), m);
      } else {
        m := FollowsNext(parts, shapes, sep, forests, j - 1, open, t, Open(parts, j),
                         TableTo(parts, shapes, sep, j), m);
      }
    }
  }

  /** A sections array is one tree in one way. */
  lemma {:induction false} SameForest(t: seq<Section>, f: Forest, g: Forest)
    requires Reps(t, f) && Reps(t, g) && Top(f) == Top(g)
    ensures f == g
    decreases f
  {
    if f != [] && g != [] {
      assert Top(f)[0] == Pointer(f[0]) && Top(g)[0] == Pointer(g[0]);
      assert Top(f)[1..] == Top(f[1..]) && Top(g)[1..] == Top(g[1..]);
      SameForest(t, f[1..], g[1..]);
      if f[0].S? { SameForest(t, f[0].kids, g[0].kids); }
      SameFirst(f, g);
    } else {
      assert |Top(f)| == |f| && |Top(g)| == |g|;
    }
  }

  lemma SameFirst(f: Forest, g: Forest)
    requires f != [] && g != [] && f[1..] == g[1..] && Pointer(f[0]) == Pointer(g[0])
    requires f[0].S? ==> g[0].S? && f[0].kids == g[0].kids
    ensures f == g
  {
    assert f == [f[0]] + f[1..] && g == [g[0]] + g[1..];
  }

  lemma OneTree(t: seq<Section>, f: Forest, g: Forest)
    requires Tree(t, f) && Tree(t, g)
    ensures f == g
  {
    hide Numbers, Ids;
    SameForest(t, f, g);
  }

  /**
   * For any parts whose sections are trees, whatever lacks elements or spans and whatever is folded where: the
   * merged sections are one tree, every section kept is in it once, and its leaves are the parts' leaves, each as
   * often. They are in the parts' order when no part folds a leaf into a section left open that a leaf has come
   * behind; and, if every pointer to an item names one, only then.
   */
  lemma FoldingKeepsTheDocument(parts: seq<Part>, shapes: seq<Shape>, sep: nat, forests: seq<Forest>)
    requires Planned(parts, shapes, |parts|) && AllTrees(parts, forests)
    ensures |parts| == |shapes| == |forests|
    ensures var t, all := TableTo(parts, shapes, sep, |parts|), LeavesTo(parts, shapes, sep, forests, |parts|);
            && |t| == SecsTo(parts, shapes, |parts|)
            && exists m ::
                 && Tree(t, m) && (forall g :: Tree(t, g) ==> g == m)
                 && multiset(Leaves(m)) == multiset(all)
                 && (OrderlyTo(parts, shapes, forests, |parts|) ==> Leaves(m) == all)
                 && (AllHold(parts, forests) ==> (Leaves(m) == all <==> OrderlyTo(parts, shapes, forests, |parts|)))
  {
    hide *;
    AllPlanned(parts, shapes, forests);
    var m := FollowsAll(parts, shapes, sep, forests, |parts|);
    var t := TableTo(parts, shapes, sep, |parts|);
    FollowsParts(parts, shapes, sep, forests, |parts|, Open(parts, |parts|), t, m);
    OrderedIs(parts, shapes, sep, forests, |parts|, m);
    StandsParts(t, m, WhereAll(parts, shapes, Open(parts, |parts|)));
    forall g | Tree(t, g) ensures g == m { OneTree(t, g, m); }
  }

  lemma AllPlanned(parts: seq<Part>, shapes: seq<Shape>, forests: seq<Forest>)
    requires Planned(parts, shapes, |parts|) && AllTrees(parts, forests)
    ensures |parts| == |shapes| == |forests| && PlanTo(parts, |parts|).Ok?
  {}

  // Conditions on the parts under which the order holds.

  lemma {:induction false} BehindLess(f: Forest, open: seq<nat>, t: nat, d: nat)
    requires Along(f, open) && d < t <= |open|
    ensures Along(f, open[..t]) && Behind(f, open[..t], d) == Behind(f, open, d)
    decreases d
  {
    hide *;
    AlongLess(f, open, t);
    BehindIs(f, open, d);
    BehindIs(f, open[..t], d);
    if d > 0 {
      AlongStep(f, open);
      assert open[..t][1..] == open[1..][..t - 1];
      BehindLess(f[Spot(f, open[0])].kids, open[1..], t - 1, d - 1);
    }
  }

  lemma OpenInParts(t: seq<Section>, m: Forest, open: seq<nat>)
    requires OpenIn(t, m, open)
    ensures |open| <= |Path(m)| && open == Path(m)[..|open|]
  {}

  /** No section left open where the tree ends is shut. */
  lemma NoneShut(t: seq<Section>, m: Forest, open: seq<nat>, shut: seq<bool>, d: nat)
    requires OpenIn(t, m, open) && Known(m, open, shut) && Distinct(Ids(m)) && d < |open|
    ensures |shut| == |open| && !shut[d]
  {
    hide *;
    KnownAt(m, open, shut, d);
    OpenInParts(t, m, open);
    PathBehind(m, d);
    BehindLess(m, Path(m), |open|, d);
  }

  lemma InOrderFrom(parts: seq<Part>, shapes: seq<Shape>, forests: seq<Forest>, k: nat)
    requires k < |parts| == |shapes| == |forests| && PlanTo(parts, k).Ok?
    requires forall d :: 0 <= d < |Open(parts, k)| ==> !Shut(parts, shapes, forests, k)[d]
    ensures FoldsInOrder(parts, shapes, forests, k)
  {
    hide Shut, FoldsLeaf, PlanTo;
  }

  lemma HoldsParts(
      parts: seq<Part>, shapes: seq<Shape>, sep: nat, forests: seq<Forest>, k: nat,
      open: seq<At>, t: seq<Section>, m: Forest)
    requires k <= |parts| == |shapes| == |forests| && Holds(parts, shapes, sep, forests, k, open, t, m)
    ensures Placed(parts, shapes, open) && Tree(t, m) && OpenIn(t, m, WhereAll(parts, shapes, open))
  {
    hide Placed, Tree, OpenIn;
  }

  lemma WhereSize(parts: seq<Part>, shapes: seq<Shape>, ats: seq<At>)
    requires |parts| == |shapes| && Placed(parts, shapes, ats)
    ensures |WhereAll(parts, shapes, ats)| == |ats|
  {}

  lemma SteadyTrees(parts: seq<Part>, shapes: seq<Shape>, forests: seq<Forest>)
    requires AllSteady(parts, shapes, forests)
    ensures AllTrees(parts, forests)
  {
    forall k | 0 <= k < |parts| ensures IsTree(parts[k], forests[k]) { SteadyAtIs(parts, shapes, forests, k); }
  }

  lemma {:induction false} SteadyOrderly(
      parts: seq<Part>, shapes: seq<Shape>, sep: nat, forests: seq<Forest>, j: nat)
    requires j <= |parts| == |shapes| == |forests|
    requires Planned(parts, shapes, j) && PlanTo(parts, j).Ok? && AllSteady(parts, shapes, forests)
    ensures OrderlyTo(parts, shapes, forests, j)
    decreases j
  {
    hide *;
    if j == 0 {
      OrderlyNone(parts, shapes, forests);
    } else {
      Stepped(parts, shapes, sep, j);
      SteadyOrderly(parts, shapes, sep, forests, j - 1);
      SteadyTrees(parts, shapes, forests);
      var open, t := Open(parts, j - 1), TableTo(parts, shapes, sep, j - 1);
      var ids, shut := WhereAll(parts, shapes, open), Shut(parts, shapes, forests, j - 1);
      var m := SteadyAll(parts, shapes, sep, forests, j - 1);
      HoldsParts(parts, shapes, sep, forests, j - 1, open, t, m);
      var g := FollowsAll(parts, shapes, sep, forests, j - 1);
      FollowsParts(parts, shapes, sep, forests, j - 1, open, t, g);
      StandsParts(t, g, ids);
      OneTree(t, m, g);
      WhereSize(parts, shapes, open);
      forall d | 0 <= d < |open| ensures !shut[d] { NoneShut(t, m, ids, shut, d); }
      InOrderFrom(parts, shapes, forests, j - 1);
      OrderlyNext(parts, shapes, forests, j - 1);
    }
  }

  lemma OrderlyNone(parts: seq<Part>, shapes: seq<Shape>, forests: seq<Forest>)
    requires |parts| == |shapes| == |forests|
    ensures OrderlyTo(parts, shapes, forests, 0)
  {}

  /**
   * The order is kept whatever sections lack elements or spans, if no part lets the sections left open go stale: none
   * whose own end cannot be extended leaves them open and goes on above the deepest of them.
   */
  lemma SteadyInOrder(parts: seq<Part>, shapes: seq<Shape>, sep: nat, forests: seq<Forest>)
    requires Planned(parts, shapes, |parts|) && AllSteady(parts, shapes, forests)
    ensures |parts| == |shapes| == |forests| && AllTrees(parts, forests)
    ensures OrderlyTo(parts, shapes, forests, |parts|)
  {
    hide *;
    SteadyTrees(parts, shapes, forests);
    AllPlanned(parts, shapes, forests);
    SteadyOrderly(parts, shapes, sep, forests, |parts|);
  }

  /** And so it is if all sections but the root carry elements and spans. */
  lemma WellFormedInOrder(parts: seq<Part>, shapes: seq<Shape>, sep: nat, forests: seq<Forest>)
    requires Planned(parts, shapes, |parts|) && AllWellFormed(parts, forests)
    ensures |parts| == |shapes| == |forests| && AllTrees(parts, forests)
    ensures OrderlyTo(parts, shapes, forests, |parts|)
  {
    hide *;
    PlannedSizes(parts, shapes, forests);
    forall k | 0 <= k < |parts| ensures SteadyAt(parts, shapes, forests, k) {
      PlannedAt(parts, shapes, k);
      WellFormedSteady(parts, shapes, forests, k);
    }
    SteadyFrom(parts, shapes, forests);
    SteadyInOrder(parts, shapes, sep, forests);
  }

  lemma PlannedSizes(parts: seq<Part>, shapes: seq<Shape>, forests: seq<Forest>)
    requires Planned(parts, shapes, |parts|) && AllWellFormed(parts, forests)
    ensures |parts| == |shapes| == |forests|
  {}

  lemma {:induction false} PlannedAt(parts: seq<Part>, shapes: seq<Shape>, k: nat)
    requires Planned(parts, shapes, |parts|) && k < |parts|
    ensures PlanTo(parts, k).Ok?
  {
    PlannedDown(parts, shapes, |parts|, k);
  }

  lemma {:induction false} PlannedDown(parts: seq<Part>, shapes: seq<Shape>, j: nat, k: nat)
    requires Planned(parts, shapes, j) && k <= j
    ensures PlanTo(parts, k).Ok?
    decreases j
  {
    if k < j {
      PlannedBefore(parts, shapes, j);
      PlannedDown(parts, shapes, j - 1, k);
    }
  }

  lemma WellFormedSteady(parts: seq<Part>, shapes: seq<Shape>, forests: seq<Forest>, k: nat)
    requires k < |parts| == |shapes| == |forests| && AllWellFormed(parts, forests) && PlanTo(parts, k).Ok?
    ensures SteadyAt(parts, shapes, forests, k)
  {
    hide PathExtensible, AllExtensible, PlanTo, Stale;
    assert WellFormed(parts[k], forests[k]);
    if parts[k].sections != [] { AllOnPath(parts[k], forests[k]); }
  }

  lemma SteadyFrom(parts: seq<Part>, shapes: seq<Shape>, forests: seq<Forest>)
    requires |parts| == |shapes| == |forests|
    requires forall k :: 0 <= k < |parts| ==> SteadyAt(parts, shapes, forests, k)
    ensures AllSteady(parts, shapes, forests)
  {}
}
