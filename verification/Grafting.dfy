/**
 * Content appended along a chain of sections from the root down, wherever each of them stands in the one above: the
 * chain need not be the one the forest ends in.
 */
module Grafting {
  import opened Lists
  import opened Sections
  import opened Forest

  /** Where section i is among the items, or |f|. */
  function Spot(f: Forest, i: nat): (p: nat)
    ensures p <= |f| && (p < |f| ==> f[p].S? && f[p].i == i)
    decreases |f|
  {
    if f == [] || (f[0].S? && f[0].i == i) then 0 else 1 + Spot(f[1..], i)
  }

  /** The first of the sections is an item, the next an item of that one's, and so on. */
  predicate Along(f: Forest, open: seq<nat>)
    decreases |open|
  {
    open == [] || (var p := Spot(f, open[0]); p < |f| && Along(f[p].kids, open[1..]))
  }

  /** f with adds[0] appended to it, adds[1] to the first section of the chain, adds[2] to the next, and so on. */
  function Graft(f: Forest, open: seq<nat>, adds: seq<Forest>): Forest
    requires |adds| == |open| + 1 && Along(f, open)
    decreases |open|
  {
    if open == [] then f + adds[0]
    else
      var p := Spot(f, open[0]);
      f[..p] + [S(open[0], Graft(f[p].kids, open[1..], adds[1..]))] + f[p + 1..] + adds[0]
  }

  /** The leaves that come after the d-th section of the chain. */
  function Behind(f: Forest, open: seq<nat>, d: nat): seq<Elem>
    requires Along(f, open) && d < |open|
    decreases |open|
  {
    var p := Spot(f, open[0]);
    (if d == 0 then [] else Behind(f[p].kids, open[1..], d - 1)) + Leaves(f[p + 1..])
  }

  lemma SplitAt(f: Forest, p: nat)
    requires p < |f| && f[p].S?
    ensures var x := f[p];
            && f == f[..p] + ([x] + f[p + 1..])
            && Ids(f) == Ids(f[..p]) + (([x.i] + Ids(x.kids)) + Ids(f[p + 1..]))
            && Leaves(f) == Leaves(f[..p]) + (Leaves(x.kids) + Leaves(f[p + 1..]))
            && Top(f) == Top(f[..p]) + ([Sec(x.i)] + Top(f[p + 1..]))
  {
    hide *;
    Split(f, p);
    Concat(f[..p], [f[p]] + f[p + 1..]);
    Concat([f[p]], f[p + 1..]);
    OneSection(f[p]);
  }

  lemma Split<T>(f: seq<T>, p: nat)
    requires p < |f|
    ensures f == f[..p] + ([f[p]] + f[p + 1..])
  {}

  lemma OneSection(x: Item)
    requires x.S?
    ensures Ids([x]) == [x.i] + Ids(x.kids) && Leaves([x]) == Leaves(x.kids) && Top([x]) == [Sec(x.i)]
  {
    One(x);
  }

  lemma Rebuilt(a: Forest, i: nat, kids: Forest, b: Forest, c: Forest)
    ensures var f := a + [S(i, kids)] + b + c;
            && Ids(f) == Ids(a) + (([i] + Ids(kids)) + (Ids(b) + Ids(c)))
            && Leaves(f) == Leaves(a) + (Leaves(kids) + (Leaves(b) + Leaves(c)))
            && Top(f) == Top(a) + ([Sec(i)] + (Top(b) + Top(c)))
  {
    var x := S(i, kids);
    assert a + [x] + b + c == a + ([x] + (b + c));
    Concat(a, [x] + (b + c));
    Concat([x], b + c);
    Concat(b, c);
    One(x);
  }

  lemma GraftIs(f: Forest, open: seq<nat>, adds: seq<Forest>)
    requires |adds| == |open| + 1 && Along(f, open) && open != []
    ensures var p := Spot(f, open[0]);
            && p < |f| && f[p].S? && f[p].i == open[0] && Along(f[p].kids, open[1..])
            && Graft(f, open, adds)
                == f[..p] + [S(open[0], Graft(f[p].kids, open[1..], adds[1..]))] + f[p + 1..] + adds[0]
  {}

  lemma GraftNothing(f: Forest, adds: seq<Forest>)
    requires |adds| == 1
    ensures Along(f, []) && Graft(f, [], adds) == f + adds[0] && Flat(adds) == adds[0]
  {
    assert Flat(adds[1..]) == [];
    assert [] + adds[0] == adds[0];
  }

  lemma FlatIs(adds: seq<Forest>)
    requires adds != []
    ensures Flat(adds) == Flat(adds[1..]) + adds[0]
    ensures Leaves(Flat(adds)) == Leaves(Flat(adds[1..])) + Leaves(adds[0])
    ensures Ids(Flat(adds)) == Ids(Flat(adds[1..])) + Ids(adds[0])
  {
    Concat(Flat(adds[1..]), adds[0]);
  }

  /** x grown by z in the middle, and c after. */
  lemma Bags<T>(a: seq<T>, h: seq<T>, x: seq<T>, y: seq<T>, b: seq<T>, z: seq<T>, c: seq<T>)
    requires multiset(y) == multiset(x) + multiset(z)
    ensures multiset(a + ((h + y) + (b + c))) == multiset(a + ((h + x) + b)) + multiset(z + c)
  {
    assert multiset(a + ((h + y) + (b + c))) == multiset(a) + (multiset(h) + multiset(y) + (multiset(b) + multiset(c)));
    assert multiset(a + ((h + x) + b)) == multiset(a) + (multiset(h) + multiset(x) + multiset(b));
  }

  lemma NoHead<T>(x: seq<T>)
    ensures [] + x == x
  {}

  /** Nothing is lost and nothing doubled, whatever the chain. */
  lemma {:induction false} Grafted(f: Forest, open: seq<nat>, adds: seq<Forest>)
    requires |adds| == |open| + 1 && Along(f, open)
    ensures multiset(Ids(Graft(f, open, adds))) == multiset(Ids(f)) + multiset(Ids(Flat(adds)))
    ensures multiset(Leaves(Graft(f, open, adds))) == multiset(Leaves(f)) + multiset(Leaves(Flat(adds)))
    decreases |open|
  {
    hide *;
    if open == [] {
      GraftNothing(f, adds);
      Concat(f, adds[0]);
    } else {
      GraftIs(f, open, adds);
      var p, rest := Spot(f, open[0]), adds[1..];
      var kids := f[p].kids;
      var more := Graft(kids, open[1..], rest);
      Grafted(kids, open[1..], rest);
      SplitAt(f, p);
      Rebuilt(f[..p], open[0], more, f[p + 1..], adds[0]);
      FlatIs(adds);
      Bags(Ids(f[..p]), [open[0]], Ids(kids), Ids(more), Ids(f[p + 1..]), Ids(Flat(rest)), Ids(adds[0]));
      NoHead(Leaves(kids));
      NoHead(Leaves(more));
      Bags(Leaves(f[..p]), [], Leaves(kids), Leaves(more), Leaves(f[p + 1..]), Leaves(Flat(rest)), Leaves(adds[0]));
    }
  }

  // The sections.

  lemma {:induction false} AlongIds(f: Forest, open: seq<nat>)
    requires Along(f, open)
    ensures forall x :: x in open ==> x in Ids(f)
    decreases |open|
  {
    if open != [] {
      var p := Spot(f, open[0]);
      SplitAt(f, p);
      AlongIds(f[p].kids, open[1..]);
      assert open == [open[0]] + open[1..];
    }
  }

  /** Table b is a with the added content's pointers at the sections of the chain, for f's sections. */
  ghost predicate GrownAt(a: seq<Section>, b: seq<Section>, f: Forest, open: seq<nat>, adds: seq<Forest>)
    requires |adds| == |open| + 1
  {
    && |a| <= |b|
    && (forall i :: i in Ids(f) && i !in open ==> SameAt(a, b, i))
    && (forall d :: 0 <= d < |open| ==> MoreAt(a, b, open[d], adds[d + 1]))
  }

  /** The parts of a forest around a section have sections of their own. */
  lemma Parted(f: Forest, p: nat)
    requires p < |f| && f[p].S? && Distinct(Ids(f))
    ensures var x := f[p];
            && Distinct(Ids(x.kids)) && x.i !in Ids(x.kids)
            && (forall i :: i in Ids(f[..p]) || i in Ids(f[p + 1..]) ==> i in Ids(f) && i != x.i && i !in Ids(x.kids))
            && (forall i :: i in Ids(x.kids) ==> i in Ids(f))
  {
    SplitAt(f, p);
    hide *;
    Middle(Ids(f), Ids(f[..p]), f[p].i, Ids(f[p].kids), Ids(f[p + 1..]));
  }

  lemma Middle(all: seq<nat>, a: seq<nat>, x: nat, k: seq<nat>, b: seq<nat>)
    requires all == a + (([x] + k) + b) && Distinct(all)
    ensures Distinct(k) && x !in k
    ensures forall i :: i in a || i in b ==> i in all && i != x && i !in k
    ensures forall i :: i in k ==> i in all
  {
    hide *;
    assert all == a + ([x] + (k + b)) && all == (a + [x]) + (k + b);
    DistinctParts(a, [x], k + b);
    DistinctParts(a + [x], k, b);
    assert x in [x];
    forall i | i in a ensures i in all && i != x && i !in k { assert i in a + [x]; }
    forall i | i in b ensures i in all && i != x && i !in k { assert i in k + b; }
    forall i | i in k ensures i in all { assert i in k + b; }
    assert x !in k by { assert x in a + [x]; }
  }

  lemma GrownAround(a: seq<Section>, b: seq<Section>, f: Forest, open: seq<nat>, adds: seq<Forest>)
    requires |adds| == |open| + 1 && open != [] && Along(f, open) && Distinct(Ids(f)) && GrownAt(a, b, f, open, adds)
    ensures var p := Spot(f, open[0]);
            && p < |f|
            && (forall i :: i in Ids(f[..p]) || i in Ids(f[p + 1..]) ==> SameAt(a, b, i))
            && GrownAt(a, b, f[p].kids, open[1..], adds[1..])
  {
    var p := Spot(f, open[0]);
    var kids := f[p].kids;
    Parted(f, p);
    AlongIds(kids, open[1..]);
    assert open == [open[0]] + open[1..];
    forall i | i in Ids(f[..p]) || i in Ids(f[p + 1..]) ensures SameAt(a, b, i) {
      assert i in Ids(f) && i !in open;
    }
    forall i | i in Ids(kids) && i !in open[1..] ensures SameAt(a, b, i) {
      assert i in Ids(f) && i !in open;
    }
    forall d | 0 <= d < |open| - 1 ensures MoreAt(a, b, open[1..][d], adds[1..][d + 1]) {
      assert MoreAt(a, b, open[d + 1], adds[d + 2]);
    }
  }

  lemma SplitReps(t: seq<Section>, f: Forest, p: nat)
    requires p < |f| && f[p].S? && Reps(t, f)
    ensures var x := f[p];
            && Reps(t, f[..p]) && Reps(t, f[p + 1..]) && x.i < |t| && Elems(t[x.i]) == Top(x.kids) && Reps(t, x.kids)
  {
    hide *;
    Split(f, p);
    RepsConcat(t, f[..p], [f[p]] + f[p + 1..]);
    RepsConcat(t, [f[p]], f[p + 1..]);
    RepsOne(t, f[p]);
  }

  lemma RepsOne(t: seq<Section>, x: Item)
    requires Reps(t, [x]) && x.S?
    ensures x.i < |t| && Elems(t[x.i]) == Top(x.kids) && Reps(t, x.kids)
  {
    assert ItemReps(t, [x][0]);
    assert x == S(x.i, x.kids);
  }

  lemma {:induction false} GraftReps(a: seq<Section>, b: seq<Section>, f: Forest, open: seq<nat>, adds: seq<Forest>)
    requires |adds| == |open| + 1 && Along(f, open)
    requires Reps(a, f) && Distinct(Ids(f)) && GrownAt(a, b, f, open, adds)
    requires forall d :: 0 <= d < |adds| ==> Reps(b, adds[d])
    ensures Reps(b, Graft(f, open, adds)) && Top(Graft(f, open, adds)) == Top(f) + Top(adds[0])
    decreases |open|
  {
    hide *;
    if open == [] {
      GraftNothing(f, adds);
      GrownNowhere(a, b, f, adds);
      RepsFrame(a, b, f);
      RepsConcat(b, f, adds[0]);
      Concat(f, adds[0]);
    } else {
      GraftIs(f, open, adds);
      var p := Spot(f, open[0]);
      var front, back, kids := f[..p], f[p + 1..], f[p].kids;
      GrownAround(a, b, f, open, adds);
      Parted(f, p);
      SplitReps(a, f, p);
      RepsFrame(a, b, front);
      RepsFrame(a, b, back);
      GraftReps(a, b, kids, open[1..], adds[1..]);
      GrownFirst(a, b, f, open, adds);
      RepsReplaced(b, front, open[0], Graft(kids, open[1..], adds[1..]), back);
      RepsConcat(b, front + [S(open[0], Graft(kids, open[1..], adds[1..]))] + back, adds[0]);
      SplitAt(f, p);
      Rebuilt(front, open[0], Graft(kids, open[1..], adds[1..]), back, adds[0]);
      assert Top(front) + ([Sec(open[0])] + (Top(back) + Top(adds[0])))
          == (Top(front) + ([Sec(open[0])] + Top(back))) + Top(adds[0]);
    }
  }

  lemma GrownNowhere(a: seq<Section>, b: seq<Section>, f: Forest, adds: seq<Forest>)
    requires |adds| == 1 && GrownAt(a, b, f, [], adds)
    ensures forall i :: i in Ids(f) ==> SameAt(a, b, i)
  {}

  lemma GrownFirst(a: seq<Section>, b: seq<Section>, f: Forest, open: seq<nat>, adds: seq<Forest>)
    requires |adds| == |open| + 1 && open != [] && GrownAt(a, b, f, open, adds) && open[0] < |a|
    ensures open[0] < |b| && Elems(b[open[0]]) == Elems(a[open[0]]) + Top(adds[1])
  {
    assert MoreAt(a, b, open[0], adds[1]);
  }

  // The chain after the graft.

  lemma {:induction false} SpotBack(f: Forest, g: Forest, i: nat)
    requires i !in Ids(f)
    ensures Spot(f + g, i) == |f| + Spot(g, i)
    decreases |f|
  {
    if f == [] {
      assert f + g == g;
    } else {
      assert (f + g)[1..] == f[1..] + g;
      assert i !in ItemIds(f[0]) && i !in Ids(f[1..]) by {
        assert Ids(f) == ItemIds(f[0]) + Ids(f[1..]);
      }
      if f[0].S? { assert f[0].i == ItemIds(f[0])[0]; }
      SpotBack(f[1..], g, i);
    }
  }

  lemma {:induction false} SpotSame(f: Forest, p: nat, kids: Forest, g: Forest, i: nat)
    requires p < |f| && p == Spot(f, i)
    ensures Spot(f[..p] + [S(i, kids)] + g, i) == p
    decreases p
  {
    var r := f[..p] + [S(i, kids)] + g;
    if p > 0 {
      assert r[0] == f[0] && r[1..] == f[1..][..p - 1] + [S(i, kids)] + g;
      SpotSame(f[1..], p - 1, kids, g, i);
    }
  }

  /** Where the first section of the chain is after the graft, and what it holds. */
  lemma GraftedFirst(f: Forest, open: seq<nat>, adds: seq<Forest>)
    requires |adds| == |open| + 1 && Along(f, open) && open != []
    ensures var p, g := Spot(f, open[0]), Graft(f, open, adds);
            && p < |f| < |g| + 1 && Spot(g, open[0]) == p
            && g[p] == S(open[0], Graft(f[p].kids, open[1..], adds[1..]))
            && g[p + 1..] == f[p + 1..] + adds[0]
  {
    hide *;
    GraftIs(f, open, adds);
    AlongStep(f, open);
    var p := Spot(f, open[0]);
    var more := Graft(f[p].kids, open[1..], adds[1..]);
    SpotSame(f, p, more, f[p + 1..] + adds[0], open[0]);
    InMiddle(f[..p], S(open[0], more), f[p + 1..], adds[0], Graft(f, open, adds));
  }

  lemma InMiddle(a: Forest, x: Item, b: Forest, c: Forest, g: Forest)
    requires g == a + [x] + b + c
    ensures g == a + [x] + (b + c) && |a| < |g| && g[|a|] == x && g[|a| + 1..] == b + c
  {}

  /** The chain goes on from depth t in what was appended there. */
  lemma {:induction false} GraftedAlong(f: Forest, open: seq<nat>, adds: seq<Forest>, t: nat, rest: seq<nat>)
    requires |adds| == |open| + 1 && Along(f, open) && t <= |open|
    requires Along(adds[t], rest) && (rest != [] ==> rest[0] !in Ids(f))
    ensures Along(Graft(f, open, adds), open[..t] + rest)
    decreases |open|
  {
    hide *;
    var next := open[..t] + rest;
    if t == 0 {
      assert next == rest;
      if rest == [] {
        AlongNone(Graft(f, open, adds));
      } else {
        GraftEnds(f, open, adds, rest[0]);
        AlongAfter(f, open, adds, rest);
      }
    } else {
      GraftedFirst(f, open, adds);
      var p := Spot(f, open[0]);
      KidIds(f, open);
      AlongStep(f, open);
      assert open[1..][..t - 1] == open[1..t];
      GraftedAlong(f[p].kids, open[1..], adds[1..], t - 1, rest);
      assert next[0] == open[0] && next[1..] == open[1..][..t - 1] + rest;
      AlongFrom(Graft(f, open, adds), next);
    }
  }

  lemma AlongNone(f: Forest)
    ensures Along(f, [])
  {}

  lemma AlongStep(f: Forest, open: seq<nat>)
    requires Along(f, open) && open != []
    ensures Spot(f, open[0]) < |f| && Along(f[Spot(f, open[0])].kids, open[1..])
  {}

  lemma AlongFrom(f: Forest, open: seq<nat>)
    requires open != [] && Spot(f, open[0]) < |f| && Along(f[Spot(f, open[0])].kids, open[1..])
    ensures Along(f, open)
  {}

  lemma KidIds(f: Forest, open: seq<nat>)
    requires Along(f, open) && open != []
    ensures var p := Spot(f, open[0]); p < |f| && forall i :: i in Ids(f[p].kids) ==> i in Ids(f)
  {
    SplitAt(f, Spot(f, open[0]));
  }

  /** A graft is what stood before with content after it, as far as new sections are concerned. */
  lemma GraftEnds(f: Forest, open: seq<nat>, adds: seq<Forest>, i: nat)
    requires |adds| == |open| + 1 && Along(f, open)
    ensures |Graft(f, open, adds)| == |f| + |adds[0]| && Graft(f, open, adds)[|f|..] == adds[0]
  {}

  lemma {:induction false} TopIds(f: Forest, q: nat)
    requires q < |f| && f[q].S?
    ensures f[q].i in Ids(f)
    decreases q
  {
    SplitAt(f, q);
  }

  lemma {:induction false} SpotNew(f: Forest, g: Forest, i: nat)
    requires forall q :: 0 <= q < |f| ==> !(f[q].S? && f[q].i == i)
    ensures Spot(f + g, i) == |f| + Spot(g, i)
    decreases |f|
  {
    if f == [] {
      assert f + g == g;
    } else {
      assert (f + g)[1..] == f[1..] + g;
      assert !(f[0].S? && f[0].i == i);
      forall q | 0 <= q < |f[1..]| ensures !(f[1..][q].S? && f[1..][q].i == i) { assert f[1..][q] == f[q + 1]; }
      SpotNew(f[1..], g, i);
    }
  }

  lemma AlongAfter(f: Forest, open: seq<nat>, adds: seq<Forest>, rest: seq<nat>)
    requires |adds| == |open| + 1 && Along(f, open) && rest != [] && rest[0] !in Ids(f) && Along(adds[0], rest)
    ensures Along(Graft(f, open, adds), rest)
    ensures Spot(Graft(f, open, adds), rest[0]) == |f| + Spot(adds[0], rest[0])
  {
    hide *;
    GraftEnds(f, open, adds, rest[0]);
    NoneThere(f, open, adds, rest[0]);
    AlongBehind(Graft(f, open, adds), |f|, adds[0], rest);
  }

  lemma AlongBehind(g: Forest, n: nat, back: Forest, rest: seq<nat>)
    requires n <= |g| && g[n..] == back && rest != [] && Along(back, rest)
    requires forall q :: 0 <= q < n ==> !(g[q].S? && g[q].i == rest[0])
    ensures Along(g, rest) && Spot(g, rest[0]) == n + Spot(back, rest[0])
  {
    hide *;
    AlongStep(back, rest);
    AfterFront(g, n, back, rest[0]);
    AlongFrom(g, rest);
  }

  lemma NoneThere(f: Forest, open: seq<nat>, adds: seq<Forest>, i: nat)
    requires |adds| == |open| + 1 && Along(f, open) && i !in Ids(f)
    ensures |f| <= |Graft(f, open, adds)|
    ensures forall q :: 0 <= q < |f| ==> !(Graft(f, open, adds)[q].S? && Graft(f, open, adds)[q].i == i)
  {
    hide *;
    GraftEnds(f, open, adds, i);
    forall q | 0 <= q < |f| ensures !(Graft(f, open, adds)[q].S? && Graft(f, open, adds)[q].i == i) {
      GraftFront(f, open, adds, q);
      if f[q].S? { TopIds(f, q); }
    }
  }

  lemma AfterFront(g: Forest, n: nat, back: Forest, i: nat)
    requires n <= |g| && g[n..] == back && forall q :: 0 <= q < n ==> !(g[q].S? && g[q].i == i)
    ensures Spot(g, i) == n + Spot(back, i)
    ensures Spot(back, i) < |back| ==> n + Spot(back, i) < |g| && g[n + Spot(back, i)] == back[Spot(back, i)]
  {
    hide *;
    FrontNew(g, n, g[..n], i);
    SpotNew(g[..n], back, i);
    assert g == g[..n] + back;
  }

  lemma FrontNew(g: Forest, n: nat, front: Forest, i: nat)
    requires n <= |g| && front == g[..n] && forall q :: 0 <= q < n ==> !(g[q].S? && g[q].i == i)
    ensures forall q :: 0 <= q < |front| ==> !(front[q].S? && front[q].i == i)
  {}

  /** The items that stood there keep their kind and number. */
  lemma GraftFront(f: Forest, open: seq<nat>, adds: seq<Forest>, q: nat)
    requires |adds| == |open| + 1 && Along(f, open) && q < |f|
    ensures q < |Graft(f, open, adds)|
    ensures Graft(f, open, adds)[q].S? == f[q].S? && (f[q].S? ==> Graft(f, open, adds)[q].i == f[q].i)
  {}

  /** The sections a forest ends in are such a chain. */
  lemma {:induction false} PathAlong(f: Forest)
    requires Distinct(Ids(f))
    ensures Along(f, Path(f))
    decreases f
  {
    if f != [] && f[|f| - 1].S? {
      var n := |f| - 1;
      var x := f[n];
      LastOff(f);
      Parted(f, n);
      SpotBack(f[..n], [x], x.i);
      assert f[..n] + [x] == f;
      PathAlong(x.kids);
      assert Path(f) == [x.i] + Path(x.kids);
      assert Path(f)[1..] == Path(x.kids);
    }
  }

  /** Part of a chain is one. */
  lemma {:induction false} AlongLess(f: Forest, open: seq<nat>, t: nat)
    requires Along(f, open) && t <= |open|
    ensures Along(f, open[..t])
    decreases |open|
  {
    if t > 0 {
      AlongLess(f[Spot(f, open[0])].kids, open[1..], t - 1);
      assert open[..t][0] == open[0] && open[..t][1..] == open[1..][..t - 1];
    }
  }
}
