/** When a graft keeps the order of the leaves: exactly when none goes into a section that old leaves come after. */
module GraftOrder {
  import opened Lists
  import opened Sections
  import opened Forest
  import opened Grafting

  /** No leaf is appended to a section of the chain behind which there are leaves. */
  ghost predicate InOrder(f: Forest, open: seq<nat>, adds: seq<Forest>)
    requires |adds| == |open| + 1 && Along(f, open)
  {
    forall d :: 0 <= d < |open| && Leaves(adds[d + 1]) != [] ==> Behind(f, open, d) == []
  }

  lemma BehindIs(f: Forest, open: seq<nat>, d: nat)
    requires Along(f, open) && d < |open|
    ensures var p := Spot(f, open[0]);
            && p < |f| && Along(f[p].kids, open[1..])
            && Behind(f, open, d) == (if d == 0 then [] else Behind(f[p].kids, open[1..], d - 1)) + Leaves(f[p + 1..])
  {}

  /** Nothing follows where nothing is. */
  lemma NoneBoth<T>(a: seq<T>, b: seq<T>)
    ensures a + b == [] <==> a == [] && b == []
  {}

  lemma InOrderBelow(f: Forest, open: seq<nat>, adds: seq<Forest>)
    requires |adds| == |open| + 1 && Along(f, open) && open != [] && InOrder(f, open, adds)
    ensures var p := Spot(f, open[0]);
            && p < |f| && Along(f[p].kids, open[1..]) && InOrder(f[p].kids, open[1..], adds[1..])
            && (Leaves(f[p + 1..]) == [] || forall d :: 0 <= d < |adds[1..]| ==> Leaves(adds[1..][d]) == [])
  {
    hide *;
    AlongStep(f, open);
    var p := Spot(f, open[0]);
    var kids, rest := f[p].kids, adds[1..];
    forall d | 0 <= d < |open| - 1 && Leaves(rest[d + 1]) != [] ensures Behind(kids, open[1..], d) == [] {
      OrderAt(f, open, adds, d + 1);
      BehindIs(f, open, d + 1);
      NoneBoth(Behind(kids, open[1..], d), Leaves(f[p + 1..]));
    }
    OrderFrom(kids, open[1..], rest);
    if Leaves(f[p + 1..]) != [] {
      forall d | 0 <= d < |rest| ensures Leaves(rest[d]) == [] {
        BehindIs(f, open, d);
        NoneBoth(if d == 0 then [] else Behind(kids, open[1..], d - 1), Leaves(f[p + 1..]));
        assert Behind(f, open, d) != [];
        OrderNone(f, open, adds, d);
      }
    }
  }

  lemma OrderAt(f: Forest, open: seq<nat>, adds: seq<Forest>, d: nat)
    requires |adds| == |open| + 1 && Along(f, open) && d < |open| && InOrder(f, open, adds) && Leaves(adds[d + 1]) != []
    ensures Behind(f, open, d) == []
  {}

  lemma OrderNone(f: Forest, open: seq<nat>, adds: seq<Forest>, d: nat)
    requires |adds| == |open| + 1 && Along(f, open) && d < |open| && InOrder(f, open, adds) && Behind(f, open, d) != []
    ensures Leaves(adds[d + 1]) == []
  {}

  lemma OrderFrom(f: Forest, open: seq<nat>, adds: seq<Forest>)
    requires |adds| == |open| + 1 && Along(f, open)
    requires forall d :: 0 <= d < |open| && Leaves(adds[d + 1]) != [] ==> Behind(f, open, d) == []
    ensures InOrder(f, open, adds)
  {}

  lemma {:induction false} FlatNone(adds: seq<Forest>)
    requires forall d :: 0 <= d < |adds| ==> Leaves(adds[d]) == []
    ensures Leaves(Flat(adds)) == []
    decreases |adds|
  {
    if adds != [] {
      FlatIs(adds);
      FlatNone(adds[1..]);
    }
  }

  /** Then the leaves are the old ones and after them the new ones. */
  lemma {:induction false} OrderKept(f: Forest, open: seq<nat>, adds: seq<Forest>)
    requires |adds| == |open| + 1 && Along(f, open) && InOrder(f, open, adds)
    ensures Leaves(Graft(f, open, adds)) == Leaves(f) + Leaves(Flat(adds))
    decreases |open|
  {
    hide *;
    if open == [] {
      GraftNothing(f, adds);
      Concat(f, adds[0]);
    } else {
      GraftIs(f, open, adds);
      var p, rest := Spot(f, open[0]), adds[1..];
      var kids := f[p].kids;
      InOrderBelow(f, open, adds);
      OrderKept(kids, open[1..], rest);
      SplitAt(f, p);
      Rebuilt(f[..p], open[0], Graft(kids, open[1..], rest), f[p + 1..], adds[0]);
      FlatIs(adds);
      if Leaves(f[p + 1..]) != [] { FlatNone(rest); }
      Swapped(Leaves(f[..p]), Leaves(kids), Leaves(Flat(rest)), Leaves(f[p + 1..]), Leaves(adds[0]));
    }
  }

  lemma Swapped<T>(a: seq<T>, k: seq<T>, n: seq<T>, b: seq<T>, c: seq<T>)
    requires n == [] || b == []
    ensures a + ((k + n) + (b + c)) == (a + (k + b)) + (n + c)
  {}

  // And back: a new leaf that an old one follows.

  predicate AllOld(s: seq<Elem>, was: Elem -> bool) { forall i :: 0 <= i < |s| ==> was(s[i]) }
  predicate NoneOld(s: seq<Elem>, was: Elem -> bool) { forall i :: 0 <= i < |s| ==> !was(s[i]) }

  /** Some new leaf comes before an old one. */
  ghost predicate Inverted(s: seq<Elem>, was: Elem -> bool) {
    exists i, j :: 0 <= i < j < |s| && !was(s[i]) && was(s[j])
  }

  lemma InvertedIn(a: seq<Elem>, x: seq<Elem>, b: seq<Elem>, was: Elem -> bool)
    requires Inverted(x, was)
    ensures Inverted(a + (x + b), was)
  {
    var i, j :| 0 <= i < j < |x| && !was(x[i]) && was(x[j]);
    var s := a + (x + b);
    assert s[|a| + i] == x[i] && s[|a| + j] == x[j];
  }

  lemma InvertedAcross(a: seq<Elem>, x: seq<Elem>, b: seq<Elem>, was: Elem -> bool, i: nat)
    requires i < |x| && !was(x[i]) && b != [] && was(b[0])
    ensures forall c: seq<Elem> :: Inverted(a + (x + (b + c)), was)
  {
    forall c: seq<Elem> ensures Inverted(a + (x + (b + c)), was) {
      var s := a + (x + (b + c));
      assert s[|a| + i] == x[i] && s[|a| + |x|] == b[0];
    }
  }

  lemma NotInverted(a: seq<Elem>, b: seq<Elem>, was: Elem -> bool)
    requires AllOld(a, was) && NoneOld(b, was)
    ensures !Inverted(a + b, was)
  {}

  /** New leaves go somewhere: into the graft. */
  lemma {:induction false} NewLeafIn(f: Forest, open: seq<nat>, adds: seq<Forest>, d: nat, was: Elem -> bool)
    returns (i: nat)
    requires |adds| == |open| + 1 && Along(f, open) && d < |adds|
    requires Leaves(adds[d]) != [] && NoneOld(Leaves(adds[d]), was)
    ensures i < |Leaves(Graft(f, open, adds))| && !was(Leaves(Graft(f, open, adds))[i])
    decreases |open|
  {
    hide *;
    if open == [] {
      GraftNothing(f, adds);
      Concat(f, adds[0]);
      FirstNew(Leaves(adds[0]), was);
      i := |Leaves(f)|;
    } else {
      GraftIs(f, open, adds);
      var p, rest := Spot(f, open[0]), adds[1..];
      var more := Graft(f[p].kids, open[1..], rest);
      Rebuilt(f[..p], open[0], more, f[p + 1..], adds[0]);
      if d == 0 {
        FirstNew(Leaves(adds[0]), was);
        i := |Leaves(f[..p])| + |Leaves(more)| + |Leaves(f[p + 1..])|;
        PlaceOf(Leaves(f[..p]), Leaves(more), Leaves(f[p + 1..]), Leaves(adds[0]));
      } else {
        var j := NewLeafIn(f[p].kids, open[1..], rest, d - 1, was);
        i := |Leaves(f[..p])| + j;
        PlaceIn(Leaves(f[..p]), Leaves(more), Leaves(f[p + 1..]) + Leaves(adds[0]), j);
      }
    }
  }

  lemma FirstNew(s: seq<Elem>, was: Elem -> bool)
    requires s != [] && NoneOld(s, was)
    ensures !was(s[0])
  {}

  lemma PlaceOf<T>(a: seq<T>, k: seq<T>, b: seq<T>, c: seq<T>)
    ensures c != [] ==> |a| + |k| + |b| < |a + (k + (b + c))| && (a + (k + (b + c)))[|a| + |k| + |b|] == c[0]
  {}

  lemma PlaceIn<T>(a: seq<T>, k: seq<T>, b: seq<T>, j: nat)
    requires j < |k|
    ensures |a| + j < |a + (k + b)| && (a + (k + b))[|a| + j] == k[j]
  {}

  lemma OldParts(f: Forest, p: nat, was: Elem -> bool)
    requires p < |f| && f[p].S? && AllOld(Leaves(f), was)
    ensures AllOld(Leaves(f[p].kids), was) && AllOld(Leaves(f[p + 1..]), was)
  {
    hide *;
    SplitAt(f, p);
    OldMiddle(Leaves(f[..p]), Leaves(f[p].kids), Leaves(f[p + 1..]), was);
  }

  lemma OldMiddle(a: seq<Elem>, k: seq<Elem>, b: seq<Elem>, was: Elem -> bool)
    requires AllOld(a + (k + b), was)
    ensures AllOld(k, was) && AllOld(b, was)
  {
    var s := a + (k + b);
    forall i | 0 <= i < |k| ensures was(k[i]) { assert s[|a| + i] == k[i]; }
    forall i | 0 <= i < |b| ensures was(b[i]) { assert s[|a| + |k| + i] == b[i]; }
  }

  lemma {:induction false} OrderBroken(f: Forest, open: seq<nat>, adds: seq<Forest>, d: nat, was: Elem -> bool)
    requires |adds| == |open| + 1 && Along(f, open) && d < |open|
    requires AllOld(Leaves(f), was) && Leaves(adds[d + 1]) != [] && NoneOld(Leaves(adds[d + 1]), was)
    requires Behind(f, open, d) != []
    ensures Inverted(Leaves(Graft(f, open, adds)), was)
    decreases |open|
  {
    hide *;
    GraftIs(f, open, adds);
    var p, rest := Spot(f, open[0]), adds[1..];
    var kids, back := f[p].kids, f[p + 1..];
    var more := Graft(kids, open[1..], rest);
    Rebuilt(f[..p], open[0], more, back, adds[0]);
    OldParts(f, p, was);
    BehindIs(f, open, d);
    if Leaves(back) != [] {
      var i := NewLeafIn(kids, open[1..], rest, d, was);
      FirstOld(Leaves(back), was);
      InvertedAcross(Leaves(f[..p]), Leaves(more), Leaves(back), was, i);
    } else {
      NothingMore(if d == 0 then [] else Behind(kids, open[1..], d - 1), Leaves(back));
      OrderBroken(kids, open[1..], rest, d - 1, was);
      InvertedIn(Leaves(f[..p]), Leaves(more), Leaves(back) + Leaves(adds[0]), was);
    }
  }

  lemma FirstOld(s: seq<Elem>, was: Elem -> bool)
    requires s != [] && AllOld(s, was)
    ensures was(s[0])
  {}

  lemma NothingMore<T>(a: seq<T>, b: seq<T>)
    requires b == []
    ensures a + b == a
  {}

  lemma {:induction false} FlatNew(adds: seq<Forest>, was: Elem -> bool)
    requires NoneOld(Leaves(Flat(adds)), was)
    ensures forall d :: 0 <= d < |adds| ==> NoneOld(Leaves(adds[d]), was)
    decreases |adds|
  {
    hide *;
    if adds != [] {
      FlatIs(adds);
      NewBoth(Leaves(Flat(adds[1..])), Leaves(adds[0]), was);
      FlatNew(adds[1..], was);
      forall d | 0 <= d < |adds| ensures NoneOld(Leaves(adds[d]), was) {
        if d > 0 { assert adds[d] == adds[1..][d - 1]; }
      }
    }
  }

  lemma NewBoth(a: seq<Elem>, b: seq<Elem>, was: Elem -> bool)
    requires NoneOld(a + b, was)
    ensures NoneOld(a, was) && NoneOld(b, was)
  {
    forall i | 0 <= i < |a| ensures !was(a[i]) { assert (a + b)[i] == a[i]; }
    forall i | 0 <= i < |b| ensures !was(b[i]) { assert (a + b)[|a| + i] == b[i]; }
  }

  /** The graft keeps the order exactly when no leaf is appended where old ones come after. */
  lemma OrderExactly(f: Forest, open: seq<nat>, adds: seq<Forest>, was: Elem -> bool)
    requires |adds| == |open| + 1 && Along(f, open)
    requires AllOld(Leaves(f), was) && NoneOld(Leaves(Flat(adds)), was)
    ensures Leaves(Graft(f, open, adds)) == Leaves(f) + Leaves(Flat(adds)) <==> InOrder(f, open, adds)
  {
    hide *;
    if InOrder(f, open, adds) { OrderKept(f, open, adds); }
    if Leaves(Graft(f, open, adds)) == Leaves(f) + Leaves(Flat(adds)) {
      NotInverted(Leaves(f), Leaves(Flat(adds)), was);
      FlatNew(adds, was);
      forall d | 0 <= d < |open| && Leaves(adds[d + 1]) != [] ensures Behind(f, open, d) == [] {
        if Behind(f, open, d) != [] { OrderBroken(f, open, adds, d, was); }
      }
      OrderFrom(f, open, adds);
    }
  }

  /** The old ones of s. */
  function OldOnes(s: seq<Elem>, was: Elem -> bool): seq<Elem>
    decreases |s|
  {
    if s == [] then [] else (if was(s[0]) then [s[0]] else []) + OldOnes(s[1..], was)
  }

  lemma {:induction false} OldJoin(a: seq<Elem>, b: seq<Elem>, was: Elem -> bool)
    ensures OldOnes(a + b, was) == OldOnes(a, was) + OldOnes(b, was)
    decreases |a|
  {
    hide *;
    OldFirst(a, was);
    OldFirst(a + b, was);
    if a == [] {
      assert a + b == b && [] + OldOnes(b, was) == OldOnes(b, was);
    } else {
      assert (a + b)[0] == a[0] && (a + b)[1..] == a[1..] + b;
      OldJoin(a[1..], b, was);
    }
  }

  lemma OldFirst(s: seq<Elem>, was: Elem -> bool)
    ensures OldOnes(s, was)
         == if s == [] then [] else if was(s[0]) then [s[0]] + OldOnes(s[1..], was) else OldOnes(s[1..], was)
  {}

  lemma {:induction false} OldAll(s: seq<Elem>, was: Elem -> bool)
    ensures AllOld(s, was) ==> OldOnes(s, was) == s
    ensures NoneOld(s, was) ==> OldOnes(s, was) == []
    decreases |s|
  {
    if s != [] { OldAll(s[1..], was); }
  }

  /** The old leaves keep their order among themselves, whatever is grafted where. */
  lemma {:induction false} OldStay(f: Forest, open: seq<nat>, adds: seq<Forest>, was: Elem -> bool)
    requires |adds| == |open| + 1 && Along(f, open)
    requires AllOld(Leaves(f), was) && forall d :: 0 <= d < |adds| ==> NoneOld(Leaves(adds[d]), was)
    ensures OldOnes(Leaves(Graft(f, open, adds)), was) == Leaves(f)
    decreases |open|
  {
    hide *;
    OldAll(Leaves(f), was);
    OldAll(Leaves(adds[0]), was);
    if open == [] {
      GraftNothing(f, adds);
      Concat(f, adds[0]);
      OldJoin(Leaves(f), Leaves(adds[0]), was);
    } else {
      GraftIs(f, open, adds);
      var p, rest := Spot(f, open[0]), adds[1..];
      var kids, back := f[p].kids, f[p + 1..];
      var more := Graft(kids, open[1..], rest);
      OldParts(f, p, was);
      OldStay(kids, open[1..], rest, was);
      SplitAt(f, p);
      Rebuilt(f[..p], open[0], more, back, adds[0]);
      OldAll(Leaves(back), was);
      OldAll(Leaves(kids), was);
      var a := Leaves(f[..p]);
      OldJoin(a, Leaves(more) + (Leaves(back) + Leaves(adds[0])), was);
      OldJoin(Leaves(more), Leaves(back) + Leaves(adds[0]), was);
      OldJoin(Leaves(back), Leaves(adds[0]), was);
      OldJoin(a, Leaves(kids) + Leaves(back), was);
      OldJoin(Leaves(kids), Leaves(back), was);
      NothingMore(Leaves(back), OldOnes(Leaves(adds[0]), was));
    }
  }

  // What comes behind the chain after the graft.

  lemma {:induction false} BehindOld(f: Forest, open: seq<nat>, adds: seq<Forest>, t: nat, rest: seq<nat>, d: nat)
    requires |adds| == |open| + 1 && Along(f, open) && d < t <= |open|
    requires Along(Graft(f, open, adds), open[..t] + rest)
    ensures Behind(Graft(f, open, adds), open[..t] + rest, d) == [] <==>
              Behind(f, open, d) == [] && forall e :: 0 <= e <= d ==> Leaves(adds[e]) == []
    decreases |open|
  {
    hide *;
    var g, next := Graft(f, open, adds), open[..t] + rest;
    GraftedFirst(f, open, adds);
    AlongStep(f, open);
    AlongStep(g, next);
    BehindIs(f, open, d);
    BehindIs(g, next, d);
    var p := Spot(f, open[0]);
    Concat(f[p + 1..], adds[0]);
    NoneBoth(Leaves(f[p + 1..]), Leaves(adds[0]));
    OpenTail(open, t, rest);
    if d == 0 {
      NoneBoth([], Leaves(f[p + 1..]));
      NoneBoth([], Leaves(f[p + 1..] + adds[0]));
    } else {
      BehindOld(f[p].kids, open[1..], adds[1..], t - 1, rest, d - 1);
      NoneBoth(Behind(f[p].kids, open[1..], d - 1), Leaves(f[p + 1..]));
      NoneBoth(Behind(g[p].kids, next[1..], d - 1), Leaves(g[p + 1..]));
      UpTo(adds, d);
    }
  }

  lemma OpenTail(open: seq<nat>, t: nat, rest: seq<nat>)
    requires 0 < t <= |open|
    ensures (open[..t] + rest)[0] == open[0] && (open[..t] + rest)[1..] == open[1..][..t - 1] + rest
  {}

  lemma UpTo(adds: seq<Forest>, d: nat)
    requires 0 < d < |adds|
    ensures (forall e :: 0 <= e <= d ==> Leaves(adds[e]) == []) <==>
              Leaves(adds[0]) == [] && forall e :: 0 <= e <= d - 1 ==> Leaves(adds[1..][e]) == []
  {
    if Leaves(adds[0]) == [] && forall e :: 0 <= e <= d - 1 ==> Leaves(adds[1..][e]) == [] {
      forall e | 0 <= e <= d ensures Leaves(adds[e]) == [] {
        if e > 0 { assert adds[e] == adds[1..][e - 1]; }
      }
    }
  }

  /** Sections of the new content: behind them is what is behind them there, and what is behind those above. */
  lemma {:induction false} BehindNew(f: Forest, open: seq<nat>, adds: seq<Forest>, t: nat, rest: seq<nat>, d: nat)
    requires |adds| == |open| + 1 && Along(f, open) && t <= |open| && d < |rest|
    requires Along(adds[t], rest) && rest[0] !in Ids(f)
    requires Along(Graft(f, open, adds), open[..t] + rest)
    ensures Behind(Graft(f, open, adds), open[..t] + rest, t + d) == [] <==>
              Behind(adds[t], rest, d) == [] && (t == 0 || Behind(Graft(f, open, adds), open[..t] + rest, t - 1) == [])
    decreases |open|
  {
    hide *;
    var g, next := Graft(f, open, adds), open[..t] + rest;
    if t == 0 {
      assert next == rest;
      AlongAfter(f, open, adds, rest);
      GraftEnds(f, open, adds, rest[0]);
      AlongStep(adds[0], rest);
      BehindIs(g, rest, d);
      BehindIs(adds[0], rest, d);
      SameBehind(g, |f|, adds[0], Spot(adds[0], rest[0]));
    } else {
      GraftedFirst(f, open, adds);
      AlongStep(f, open);
      AlongStep(g, next);
      KidIds(f, open);
      var p := Spot(f, open[0]);
      assert next[0] == open[0] && next[1..] == open[1..][..t - 1] + rest;
      BehindNew(f[p].kids, open[1..], adds[1..], t - 1, rest, d);
      BehindIs(g, next, t + d);
      BehindIs(g, next, t - 1);
      NoneBoth(Behind(g[p].kids, next[1..], t + d - 1), Leaves(g[p + 1..]));
      NoneBoth(if t == 1 then [] else Behind(g[p].kids, next[1..], t - 2), Leaves(g[p + 1..]));
    }
  }

  lemma SameBehind(g: Forest, n: nat, back: Forest, q: nat)
    requires n <= |g| && g[n..] == back && q < |back|
    ensures n + q < |g| && g[n + q] == back[q] && g[n + q + 1..] == back[q + 1..]
  {}

  /** Nothing comes behind the sections a forest ends in. */
  lemma {:induction false} PathBehind(f: Forest, d: nat)
    requires Distinct(Ids(f)) && d < |Path(f)|
    ensures Along(f, Path(f)) && Behind(f, Path(f), d) == []
    decreases d
  {
    hide *;
    PathAlong(f);
    LastSpot(f);
    BehindIs(f, Path(f), d);
    if d > 0 { PathBehind(f[|f| - 1].kids, d - 1); }
    NothingMore(if d == 0 then [] else Behind(f[|f| - 1].kids, Path(f)[1..], d - 1), Leaves(f[|f|..]));
  }

  lemma LastSpot(f: Forest)
    requires Distinct(Ids(f)) && Path(f) != []
    ensures f != []
    ensures var n := |f| - 1;
            && f[n].S? && Path(f) == [f[n].i] + Path(f[n].kids) && Path(f)[1..] == Path(f[n].kids)
            && Spot(f, Path(f)[0]) == n && Distinct(Ids(f[n].kids)) && Leaves(f[n + 1..]) == []
  {
    var n := |f| - 1;
    var x := f[n];
    Parted(f, n);
    SpotBack(f[..n], [x], x.i);
    assert f[..n] + [x] == f;
  }
}
