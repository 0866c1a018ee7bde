/**
 * The merged sections of parts whose sections are trees, whatever lacks elements or spans and however long the
 * sections left open outlive the end of the tree: still one tree, nothing lost and nothing doubled.
 */
module AnyTree {
  import opened Lists
  import opened Sections
  import opened Forest
  import opened Lead
  import opened Renumber
  import opened Fold
  import opened Incremental
  import opened LeftOpen
  import opened Document
  import opened Closing
  import opened Grafting

  /** The sections left open are a chain of the merged tree, and can be extended. */
  ghost predicate Stands(t: seq<Section>, m: Forest, open: seq<nat>) {
    && Tree(t, m) && Along(m, open)
    && forall d :: 0 <= d < |open| ==> 0 < open[d] < |t| && Extensible(t[open[d]])
  }

  lemma StandsParts(t: seq<Section>, m: Forest, open: seq<nat>)
    requires Stands(t, m, open)
    ensures Tree(t, m) && Along(m, open) && t != [] && Reps(t, m) && Distinct(Ids(m)) && Elems(t[0]) == Top(m)
    ensures forall d :: 0 <= d < |open| ==> 0 < open[d] < |t| && Extensible(t[open[d]])
    ensures forall i :: i in Ids(m) ==> 0 < i < |t|
  {}

  lemma {:induction false} AlongDistinct(f: Forest, open: seq<nat>)
    requires Along(f, open) && Distinct(Ids(f))
    ensures Distinct(open)
    decreases |open|
  {
    if open != [] {
      var p := Spot(f, open[0]);
      Parted(f, p);
      AlongDistinct(f[p].kids, open[1..]);
      AlongIds(f[p].kids, open[1..]);
      hide Along, Ids;
      DistinctCons(open[0], open[1..]);
      assert open == [open[0]] + open[1..];
    }
  }

  /** The table's old sections with a part added: the open ones have what the part adds there. */
  lemma AddedAnywhere(t: seq<Section>, open: seq<nat>, m: Forest, p: Part, f: Forest, s: Shape, sh: Shift)
    requires sh.prevEnd <= sh.start && p.sections != [] && Stands(t, m, open)
    requires Reps(p.sections, f) && Top(f) == RootElems(p) && Fits(p, s, |open|, f)
    ensures GrownAt(t, AddPart(t, open, p, s, sh), m, open, RenAdds(sh, Adds(f, s, |open|)))
  {
    hide *;
    FitsBounds(p, s, |open|, f);
    var pieces := Adds(f, s, |open|);
    var adds, r := RenAdds(sh, pieces), AddPart(t, open, p, s, sh);
    StandsParts(t, m, open);
    AlongDistinct(m, open);
    forall i | i in Ids(m) && i !in open ensures SameAt(t, r, i) { AddedOther(t, open, p, s, sh, i); }
    forall d | 0 <= d < |open| ensures MoreAt(t, r, open[d], adds[d + 1]) {
      FindsAt(open, d);
      AddsTop(p, f, s, |open|, d + 1);
      RenTop(sh, pieces[d + 1]);
      OpenGrown(t, open, p, s, sh, d, adds[d + 1]);
    }
    GrownAll(t, r, m, open, adds);
  }

  lemma GrownAll(a: seq<Section>, b: seq<Section>, f: Forest, open: seq<nat>, adds: seq<Forest>)
    requires |adds| == |open| + 1 && |a| <= |b|
    requires forall i :: i in Ids(f) && i !in open ==> SameAt(a, b, i)
    requires forall d :: 0 <= d < |open| ==> MoreAt(a, b, open[d], adds[d + 1])
    ensures GrownAt(a, b, f, open, adds)
  {}

  lemma OpenGrown(t: seq<Section>, open: seq<nat>, p: Part, s: Shape, sh: Shift, d: nat, add: Forest)
    requires sh.prevEnd <= sh.start && p.sections != [] && d < |open| && 0 < open[d] < |t| && Extensible(t[open[d]])
    requires Find(open, open[d]) == d && Top(add) == RenElems(sh, ShareElems(p, s, |open|, d + 1))
    ensures MoreAt(t, AddPart(t, open, p, s, sh), open[d], add)
  {
    assert AddPart(t, open, p, s, sh)[open[d]] == GrowAt(t, open, p, s, sh, open[d]);
  }

  lemma NumbersBag(a: seq<nat>, b: seq<nat>, lo: nat, hi: nat)
    requires Numbers(a, lo, hi) && multiset(a) == multiset(b)
    ensures Numbers(b, lo, hi)
  {
    forall x ensures x in b <==> lo <= x < hi { SameIn(a, b, x); }
    OnceBag(a, b);
  }

  lemma SameIn(a: seq<nat>, b: seq<nat>, x: int)
    requires multiset(a) == multiset(b)
    ensures x in a <==> x in b
  {
    if x >= 0 {
      assert x in a <==> x in multiset(a);
      assert x in b <==> x in multiset(b);
    }
  }

  /** Distinct elements, in another order, are distinct. */
  lemma OnceBag(a: seq<nat>, b: seq<nat>)
    requires Distinct(a) && multiset(a) == multiset(b)
    ensures Distinct(b)
  {
    forall i, j | 0 <= i < j < |b| ensures b[i] != b[j] {
      OneOf(a, b[i]);
      if b[i] == b[j] { TwoOf(b, i, j); }
    }
  }

  lemma {:induction false} OneOf(a: seq<nat>, x: nat)
    requires Distinct(a)
    ensures multiset(a)[x] <= 1
    decreases |a|
  {
    if a != [] {
      var n := |a| - 1;
      OneOf(a[..n], x);
      assert a == a[..n] + [a[n]];
      assert a[n] !in a[..n];
    }
  }

  lemma TwoOf(b: seq<nat>, i: nat, j: nat)
    requires i < j < |b| && b[i] == b[j]
    ensures multiset(b)[b[i]] >= 2
  {
    assert b == b[..i] + [b[i]] + b[i + 1..j] + [b[j]] + b[j + 1..];
  }

  /** What the part adds has numbers of its own, past those of the table, and its leaves are the part's. */
  lemma NewNumbers(t: seq<Section>, m: Forest, p: Part, f: Forest, s: Shape, depth: nat, sh: Shift)
    requires sh.secBase == |t| && sh.secDrop == SecDrop(s) && Tree(t, m) && Tree(p.sections, f) && Fits(p, s, depth, f)
    ensures (s.Run? || s.Moved? ==> depth > 0) && (s.Chain? ==> s.n <= depth) && (s.Run? ==> s.n <= |f|)
    ensures var adds := RenAdds(sh, Adds(f, s, depth));
            && Numbers(Ids(m) + Ids(Flat(adds)), 1, |t| + Kept(p, s))
            && Leaves(Flat(adds)) == RenElems(sh, Leaves(f))
  {
    var flat := Flat(Adds(f, s, depth));
    FlatRen(sh, Adds(f, s, depth));
    FlatAdds(f, s, depth);
    RenContents(sh, flat);
    KeptNumbers(Ids(f), SecDrop(s), Ids(flat), |p.sections|);
    RenNumbers(sh, Ids(flat), |p.sections|);
    NumbersJoin(Ids(m), RenIds(sh, Ids(flat)), 1, |t|, |t| + Kept(p, s));
  }

  ghost function Merged(m: Forest, open: seq<nat>, f: Forest, s: Shape, sh: Shift): Forest
    requires Along(m, open) && (s.Run? || s.Moved? ==> |open| > 0)
    requires (s.Chain? ==> s.n <= |open|) && (s.Run? ==> s.n <= |f|)
  {
    Graft(m, open, RenAdds(sh, Adds(f, s, |open|)))
  }

  lemma TreeFrom(t: seq<Section>, m: Forest)
    requires t != [] && Elems(t[0]) == Top(m) && Reps(t, m) && Numbers(Ids(m), 1, |t|)
    ensures Tree(t, m)
  {}

  lemma AddedSize(t: seq<Section>, open: seq<nat>, p: Part, s: Shape, sh: Shift)
    requires sh.prevEnd <= sh.start && p.sections != []
    ensures |AddPart(t, open, p, s, sh)| == |t| + Kept(p, s)
  {}

  lemma BagJoin<T>(a: seq<T>, b: seq<T>)
    ensures multiset(a + b) == multiset(a) + multiset(b)
  {}

  /** A part added: one tree again, its leaves the old ones and the part's. */
  lemma AnyStep(t: seq<Section>, open: seq<nat>, m: Forest, p: Part, f: Forest, s: Shape, sh: Shift)
    requires sh.prevEnd <= sh.start && sh.secBase == |t| && sh.secDrop == SecDrop(s) && Stands(t, m, open)
    requires Tree(p.sections, f) && Fits(p, s, |open|, f)
    ensures p.sections != [] && Along(m, open)
    ensures (s.Run? || s.Moved? ==> |open| > 0) && (s.Chain? ==> s.n <= |open|) && (s.Run? ==> s.n <= |f|)
    ensures Tree(AddPart(t, open, p, s, sh), Merged(m, open, f, s, sh))
    ensures multiset(Leaves(Merged(m, open, f, s, sh))) == multiset(Leaves(m)) + multiset(RenElems(sh, Leaves(f)))
  {
    hide *;
    StandsParts(t, m, open);
    FitsBounds(p, s, |open|, f);
    PartParts(p, f);
    var pieces := Adds(f, s, |open|);
    var adds, r := RenAdds(sh, pieces), AddPart(t, open, p, s, sh);
    MergedIs(m, open, f, s, sh);
    AddedAnywhere(t, open, m, p, f, s, sh);
    forall d | 0 <= d < |adds| ensures Reps(r, adds[d]) { AddedReps(t, open, p, f, s, sh, d); }
    GraftReps(t, r, m, open, adds);
    RootAdded(t, open, p, f, s, sh);
    Grafted(m, open, adds);
    NewNumbers(t, m, p, f, s, |open|, sh);
    BagJoin(Ids(m), Ids(Flat(adds)));
    AddedSize(t, open, p, s, sh);
    NumbersBag(Ids(m) + Ids(Flat(adds)), Ids(Graft(m, open, adds)), 1, |r|);
    TreeFrom(r, Graft(m, open, adds));
  }

  lemma MergedIs(m: Forest, open: seq<nat>, f: Forest, s: Shape, sh: Shift)
    requires Along(m, open) && (s.Run? || s.Moved? ==> |open| > 0)
    requires (s.Chain? ==> s.n <= |open|) && (s.Run? ==> s.n <= |f|)
    ensures Merged(m, open, f, s, sh) == Graft(m, open, RenAdds(sh, Adds(f, s, |open|)))
  {}

  // What stays open.

  /**
   * The plan keeps the first t open sections, and goes on with the sections the part's content there ends in,
   * if any.
   */
  lemma WhatStays(p: Part, k: nat, ats: seq<At>, f: Forest, s: Shape) returns (t: nat, rest: seq<nat>)
    requires Tree(p.sections, f) && Fits(p, s, |ats|, f)
    ensures (s.Run? || s.Moved? ==> |ats| > 0) && (s.Chain? ==> s.n <= |ats|) && (s.Run? ==> s.n <= |f|)
    ensures t <= |ats| && NextOpen(p, k, ats, s) == ats[..t] + Ats(k, rest)
    ensures rest == [] || rest == Path(Adds(f, s, |ats|)[t])
    ensures forall x :: x in rest ==> SecDrop(s) < x < |p.sections| && Extensible(p.sections[x])
  {
    hide *;
    FitsBounds(p, s, |ats|, f);
    if s.Moved? {
      t, rest := |ats|, [];
      StaysAll(p, k, ats, s);
    } else if PathExtensible(p, f) && f != [] && Path(f) != [] {
      t, rest := StaysTurned(p, k, ats, f, s);
    } else {
      rest := [];
      PathEmpty(p, f);
      NextBlocked(p, k, ats, s);
      t := if |RootElems(p)| > RootDrop(s) then 0 else |ats|;
      NoneOfOwn(ats, k);
    }
  }

  lemma StaysAll(p: Part, k: nat, ats: seq<At>, s: Shape)
    requires s.Moved?
    ensures NextOpen(p, k, ats, s) == ats[..|ats|] + Ats(k, [])
  {
    assert ats[..|ats|] + Ats(k, []) == ats;
  }

  lemma NoneOfOwn(ats: seq<At>, k: nat)
    ensures ats[..0] + Ats(k, []) == [] && ats[..|ats|] + Ats(k, []) == ats
  {}

  lemma PathEmpty(p: Part, f: Forest)
    requires Tree(p.sections, f) && (!PathExtensible(p, f) || f == [] || Path(f) == [])
    ensures OpenPath(p) == []
  {
    if PathExtensible(p, f) {
      FullPath(p, f);
    } else {
      PathBlocked(p, f);
    }
  }

  lemma StaysTurned(p: Part, k: nat, ats: seq<At>, f: Forest, s: Shape) returns (t: nat, rest: seq<nat>)
    requires Tree(p.sections, f) && Fits(p, s, |ats|, f)
    requires !s.Moved? && PathExtensible(p, f) && f != [] && Path(f) != []
    ensures (s.Run? || s.Moved? ==> |ats| > 0) && (s.Chain? ==> s.n <= |ats|) && (s.Run? ==> s.n <= |f|)
    ensures t <= |ats| && NextOpen(p, k, ats, s) == ats[..t] + Ats(k, rest)
    ensures rest == Path(Adds(f, s, |ats|)[t])
    ensures forall x :: x in rest ==> SecDrop(s) < x < |p.sections| && Extensible(p.sections[x])
  {
    hide *;
    var depth := |ats|;
    FitsBounds(p, s, depth, f);
    FullPath(p, f);
    var c, turn, below := TurnAt(p, f, s, depth);
    TurnsParts(f, s, depth, c, turn, below);
    t, rest := turn, Path(below);
    forall x | x in rest ensures SecDrop(s) < x < |p.sections| && Extensible(p.sections[x]) {
      BelowKept(f, s, depth, p.sections, turn, x);
      OnPath(p, f, x);
    }
    IntoAll(s, depth);
    ReopenPath(k, ats, Into(s, depth), c, rest);
    NextOpenIs(p, k, ats, s);
    AfterTurn(ats, k, c, turn, rest, Into(s, depth));
  }

  lemma {:induction false} AddDistinct(adds: seq<Forest>, d: nat)
    requires Distinct(Ids(Flat(adds))) && d < |adds|
    ensures Distinct(Ids(adds[d]))
    decreases |adds|
  {
    hide *;
    FlatIs(adds);
    TwoDistinct(Ids(Flat(adds[1..])), Ids(adds[0]));
    if d > 0 {
      AddDistinct(adds[1..], d - 1);
      assert adds[d] == adds[1..][d - 1];
    }
  }

  lemma TwoDistinct(a: seq<nat>, b: seq<nat>)
    requires Distinct(a + b)
    ensures Distinct(a) && Distinct(b)
  {
    assert a + b == a + (b + []);
    DistinctParts(a, b, []);
  }

  lemma NumbersDistinct(ids: seq<nat>, lo: nat, hi: nat)
    requires Numbers(ids, lo, hi)
    ensures Distinct(ids)
  {}

  /** What stays open after a part are sections of the merged tree, as far down. */
  lemma StillStands(
      parts: seq<Part>, shapes: seq<Shape>, t: seq<Section>, ats: seq<At>, m: Forest, f: Forest, sh: Shift, n: nat,
      rest: seq<nat>)
    requires sh.k < |parts| && sh.k < |shapes| && sh.secBase == |t| && sh.prevEnd <= sh.start
    requires sh.secDrop == SecDrop(shapes[sh.k]) && SecsTo(parts, shapes, sh.k) == |t|
    requires Placed(parts, shapes, ats) && Stands(t, m, WhereAll(parts, shapes, ats))
    requires Tree(parts[sh.k].sections, f) && Fits(parts[sh.k], shapes[sh.k], |ats|, f)
    requires Along(m, WhereAll(parts, shapes, ats))
    requires var s := shapes[sh.k];
             && (s.Run? || s.Moved? ==> |ats| > 0) && (s.Chain? ==> s.n <= |ats|) && (s.Run? ==> s.n <= |f|)
             && n <= |ats| && (rest == [] || rest == Path(Adds(f, s, |ats|)[n]))
    requires forall x :: x in rest ==>
             SecDrop(shapes[sh.k]) < x < |parts[sh.k].sections| && Extensible(parts[sh.k].sections[x])
    ensures var p, s, open, next := parts[sh.k], shapes[sh.k], WhereAll(parts, shapes, ats), ats[..n] + Ats(sh.k, rest);
            && p.sections != [] && Placed(parts, shapes, next)
            && WhereAll(parts, shapes, next) == open[..n] + RenIds(sh, rest)
            && Stands(AddPart(t, open, p, s, sh), Merged(m, open, f, s, sh), WhereAll(parts, shapes, next))
            && Along(RenAdds(sh, Adds(f, s, |ats|))[n], RenIds(sh, rest))
            && (rest != [] ==>
                  && RenIds(sh, rest) == Path(RenAdds(sh, Adds(f, s, |ats|))[n]) && RenIds(sh, rest)[0] !in Ids(m)
                  && Distinct(Ids(RenAdds(sh, Adds(f, s, |ats|))[n])))
  {
    hide *;
    var p, s, open := parts[sh.k], shapes[sh.k], WhereAll(parts, shapes, ats);
    var adds := RenAdds(sh, Adds(f, s, |ats|));
    AnyStep(t, open, m, p, f, s, sh);
    MergedIs(m, open, f, s, sh);
    NewOpen(parts, shapes, ats, sh, n, rest);
    StandsParts(t, m, open);
    NewNumbers(t, m, p, f, s, |ats|, sh);
    NumbersDistinct(Ids(m) + Ids(Flat(adds)), 1, |t| + Kept(p, s));
    TwoDistinct(Ids(m), Ids(Flat(adds)));
    AddDistinct(adds, n);
    if rest == [] {
      AlongNone(adds[n]);
      RenNone(sh);
    } else {
      RenPath(sh, Adds(f, s, |ats|)[n]);
      PathAlong(adds[n]);
      NewAfter(sh, rest, |t|);
    }
    GraftedAlong(m, open, adds, n, RenIds(sh, rest));
    StillOpen(t, open, p, s, sh, n, rest);
    StandsFrom(AddPart(t, open, p, s, sh), Merged(m, open, f, s, sh), open[..n] + RenIds(sh, rest));
  }

  lemma RenNone(sh: Shift)
    ensures RenIds(sh, []) == []
  {}

  lemma StandsFrom(t: seq<Section>, m: Forest, open: seq<nat>)
    requires Tree(t, m) && Along(m, open)
    requires forall d :: 0 <= d < |open| ==> 0 < open[d] < |t| && Extensible(t[open[d]])
    ensures Stands(t, m, open)
  {}

  lemma StillOpen(t: seq<Section>, open: seq<nat>, p: Part, s: Shape, sh: Shift, n: nat, rest: seq<nat>)
    requires sh.prevEnd <= sh.start && sh.secBase == |t| > 0
    requires sh.secDrop == SecDrop(s) && p.sections != [] && n <= |open|
    requires forall d :: 0 <= d < |open| ==> 0 < open[d] < |t| && Extensible(t[open[d]])
    requires forall x :: x in rest ==> SecDrop(s) < x < |p.sections| && Extensible(p.sections[x])
    ensures var r, next := AddPart(t, open, p, s, sh), open[..n] + RenIds(sh, rest);
            forall d :: 0 <= d < |next| ==> 0 < next[d] < |r| && Extensible(r[next[d]])
  {
    hide *;
    var r, next := AddPart(t, open, p, s, sh), open[..n] + RenIds(sh, rest);
    AddedSize(t, open, p, s, sh);
    KeptExtensible(t, open, p, s, sh, rest);
    forall d | 0 <= d < |next| ensures 0 < next[d] < |r| && Extensible(r[next[d]]) {
      if d < n {
        assert next[d] == open[d];
        StillExtensible(t, open, p, s, sh, open[d]);
      } else {
        assert next[d] == RenIds(sh, rest)[d - n];
        assert rest[d - n] in rest;
        RenPast(sh, rest[d - n]);
      }
    }
  }

  lemma RenPast(sh: Shift, x: nat)
    requires sh.secDrop < x
    ensures RenSec(sh, x) >= sh.secBase
  {}
}
