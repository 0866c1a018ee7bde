/** Which sections a part leaves open (continue.go:262-284, 503-533), in terms of the merged tree. */
module LeftOpen {
  import opened Lists
  import opened Sections
  import opened Forest
  import opened Lead
  import opened Renumber
  import opened Fold
  import opened Incremental

  /** Every section but the root carries elements and spans. */
  ghost predicate AllExtensible(p: Part) {
    forall i :: 1 <= i < |p.sections| ==> Extensible(p.sections[i])
  }

  /** The sections the part's tree ends in carry elements and spans. */
  ghost predicate PathExtensible(p: Part, f: Forest) {
    forall x :: x in Path(f) ==> x < |p.sections| && Extensible(p.sections[x])
  }

  lemma AllOnPath(p: Part, f: Forest)
    requires AllExtensible(p) && Tree(p.sections, f)
    ensures PathExtensible(p, f)
  {
    PathIds(f);
  }

  ghost predicate Below(s: seq<nat>, n: nat) {
    forall x :: x in s ==> 1 <= x < n
  }

  function UpTo(n: nat): (r: set<nat>)
    ensures forall x :: x in r <==> 1 <= x < n
    ensures |r| == if n == 0 then 0 else n - 1
    decreases n
  {
    if n <= 1 then {} else UpTo(n - 1) + {n - 1}
  }

  lemma {:induction false} FewIds(s: seq<nat>, some: set<nat>)
    requires Distinct(s) && forall x :: x in s ==> x in some
    ensures |s| <= |some|
    decreases |s|
  {
    if s != [] {
      var n := |s| - 1;
      assert s[n] in some;
      forall x | x in s[..n] ensures x in some - {s[n]} {
        var k :| 0 <= k < n && s[k] == x;
      }
      FewIds(s[..n], some - {s[n]});
    }
  }

  /** In a tree whose sections can all be extended, the walk finds the whole path it ends in. */
  lemma {:induction false} WalkPath(p: Part, f: Forest, path: seq<nat>, steps: nat)
    requires PathExtensible(p, f) && Reps(p.sections, f) && p.sections != []
    requires Below(path, |p.sections|) && Below(Ids(f), |p.sections|) && Distinct(path + Ids(f))
    requires |path| + steps >= |p.sections|
    ensures forall x :: x in path ==> 1 <= x < |p.sections|
    ensures Walk(p.sections, Top(f), path, steps) == path + Path(f)
    decreases steps
  {
    hide *;
    LastTop(f);
    BelowIs(path, |p.sections|);
    if f != [] && f[|f| - 1].S? {
      var i, kids := f[|f| - 1].i, f[|f| - 1].kids;
      WalkOn(p, f, path);
      PathOn(p, f);
      StepsLeft(path, i, |p.sections|);
      WalkPath(p, kids, path + [i], steps - 1);
      WalkStep(p, Top(f), path, steps);
      Associate(path, [i], Path(kids));
    } else {
      WalkStops(p.sections, Top(f), path, steps);
      PathStops(f);
      assert path + [] == path;
    }
  }

  lemma BelowIs(s: seq<nat>, n: nat)
    requires Below(s, n)
    ensures forall x :: x in s ==> 1 <= x < n
  {}

  lemma LastTop(f: Forest)
    ensures |Top(f)| == |f| && (f != [] ==> Top(f)[|f| - 1] == Pointer(f[|f| - 1]))
    ensures f != [] && f[|f| - 1].S? ==> Top(f)[|f| - 1] == Sec(f[|f| - 1].i)
    ensures f != [] && f[|f| - 1].L? ==> Top(f)[|f| - 1].Leaf?
  {
    TopAt(f);
  }

  lemma PathStops(f: Forest)
    requires f == [] || f[|f| - 1].L?
    ensures Path(f) == []
  {}

  /** The first section the tree ends in, and the rest. */
  lemma PathOn(p: Part, f: Forest)
    requires PathExtensible(p, f) && f != [] && f[|f| - 1].S? && f[|f| - 1].i < |p.sections|
    ensures var i, kids := f[|f| - 1].i, f[|f| - 1].kids;
            Path(f) == [i] + Path(kids) && Extensible(p.sections[i]) && PathExtensible(p, kids)
  {
    var i, kids := f[|f| - 1].i, f[|f| - 1].kids;
    assert Path(f) == [i] + Path(kids) && i in Path(f);
    assert forall x :: x in Path(kids) ==> x in Path(f);
  }

  lemma WalkStops(secs: seq<Section>, elems: seq<Elem>, path: seq<nat>, steps: nat)
    requires Below(path, |secs|) && (elems == [] || elems[|elems| - 1].Leaf?)
    ensures forall x :: x in path ==> 1 <= x < |secs|
    ensures Walk(secs, elems, path, steps) == path
  {}

  /** A walk that has not passed a section has a step left for it. */
  lemma StepsLeft(path: seq<nat>, i: nat, n: nat)
    requires Distinct(path + [i]) && Below(path + [i], n)
    ensures |path| + 1 < n && forall x :: x in path + [i] ==> 1 <= x < n
  {
    assert i in path + [i];
    FewIds(path + [i], UpTo(n));
  }

  lemma WalkStep(p: Part, elems: seq<Elem>, path: seq<nat>, steps: nat)
    requires Below(path, |p.sections|) && steps > 0 && elems != [] && elems[|elems| - 1].Sec?
    requires var i := elems[|elems| - 1].i; 1 <= i < |p.sections| && i !in path && Extensible(p.sections[i])
    requires Below(path + [elems[|elems| - 1].i], |p.sections|)
    ensures var i := elems[|elems| - 1].i;
            Walk(p.sections, elems, path, steps) == Walk(p.sections, Elems(p.sections[i]), path + [i], steps - 1)
  {}

  /** The walk's next step stays within what it has not passed. */
  lemma WalkOn(p: Part, f: Forest, path: seq<nat>)
    requires Reps(p.sections, f) && p.sections != [] && f != [] && f[|f| - 1].S?
    requires Below(path, |p.sections|) && Below(Ids(f), |p.sections|) && Distinct(path + Ids(f))
    ensures var i, kids := f[|f| - 1].i, f[|f| - 1].kids;
            && 1 <= i < |p.sections| && i !in path
            && Below(path + [i], |p.sections|) && Distinct(path + [i])
            && Elems(p.sections[i]) == Top(kids) && Reps(p.sections, kids)
            && Below(Ids(kids), |p.sections|) && Distinct(path + [i] + Ids(kids))
  {
    var n := |f| - 1;
    LastOff(f);
    var i, kids := f[n].i, f[n].kids;
    DistinctStep(path, Ids(f[..n]), i, Ids(kids), Ids(f));
    RepsConcat(p.sections, f[..n], [f[n]]);
  }

  lemma DistinctStep(path: seq<nat>, front: seq<nat>, i: nat, ids: seq<nat>, all: seq<nat>)
    requires all == front + ([i] + ids) && Distinct(path + all)
    ensures i in all && i !in path && Distinct(path + [i]) && Distinct(path + [i] + ids)
    ensures forall x :: x in ids ==> x in all
  {
    assert path + all == path + front + ([i] + ids);
    DistinctSubset(path, front, [i], ids);
    assert path + [i] + ids == path + ([i] + ids);
    assert i in [i];
  }

  lemma DistinctSubset(a: seq<nat>, b: seq<nat>, c: seq<nat>, d: seq<nat>)
    requires Distinct(a + b + (c + d))
    ensures Distinct(a + (c + d))
    ensures Distinct(a + c)
    ensures forall x :: x in c ==> x !in a
  {
    var s, r := a + b + (c + d), a + (c + d);
    forall i, j | 0 <= i < j < |r| ensures r[i] != r[j] {
      var x := if i < |a| then i else i + |b|;
      var y := if j < |a| then j else j + |b|;
      assert s[x] == r[i] && s[y] == r[j];
    }
    assert forall k :: 0 <= k < |a + c| ==> (a + c)[k] == r[k];
    assert forall k :: 0 <= k < |c| ==> r[|a| + k] == c[k];
    assert forall k :: 0 <= k < |a| ==> r[k] == a[k];
  }

  /** Of the chain's sections the path goes through the first m, and on in what the m-th keeps. */
  lemma {:induction false} ChainPath(f: Forest, i: nat, n: nat) returns (m: nat)
    requires Opens(f, i, n)
    ensures m <= n
    ensures Path(f) == Range(i, m) + Path(Peel(f, n)[m])
    ensures forall j :: 0 <= j < m ==> Peel(f, n)[j] == []
    ensures m < n ==> Peel(f, n)[m] != []
    decreases n
  {
    m := 0;
    if n == 0 {
      assert Range(i, 0) + Path(f) == Path(f);
    } else if f[1..] != [] {
      assert f[1..][|f| - 2] == f[|f| - 1];
      assert Range(i, 0) + Path(f[1..]) == Path(f);
    } else {
      var kids := f[0].kids;
      var k := ChainPath(kids, i + 1, n - 1);
      m := k + 1;
      RangeCons(i, k, Path(Peel(kids, n - 1)[k]));
      assert Path(f) == [i] + Path(kids);
      assert Peel(f, n)[m] == Peel(kids, n - 1)[k];
    }
  }

  lemma RangeCons(i: nat, k: nat, rest: seq<nat>)
    ensures Range(i, k + 1) + rest == [i] + (Range(i + 1, k) + rest)
  {}

  function Ats(k: nat, path: seq<nat>): (r: seq<At>)
    ensures |r| == |path|
    ensures forall j :: 0 <= j < |path| ==> r[j] == At(k, path[j])
  {
    seq(|path|, j requires 0 <= j < |path| => At(k, path[j]))
  }

  /** Folded sections on the path stand for the open sections they were folded into. */
  lemma {:induction false} ReopenPath(k: nat, open: seq<At>, into: seq<nat>, m: nat, rest: seq<nat>)
    requires forall j :: 0 <= j < |into| ==> into[j] <= |open|
    requires m <= |into| && forall x :: x in rest ==> x > |into|
    ensures forall x :: x in Range(1, m) + rest ==> x >= 1
    ensures Reopen(k, open, into, Range(1, m) + rest)
         == (if m == 0 then [] else open[..into[m - 1]]) + Ats(k, rest)
    decreases |rest|
  {
    var path := Range(1, m) + rest;
    if rest == [] {
      assert path == Range(1, m);
      assert m > 0 ==> path[m - 1] == m;
    } else {
      var n := |rest| - 1;
      assert rest[n] in rest && forall x :: x in rest[..n] ==> x in rest;
      assert path[..|path| - 1] == Range(1, m) + rest[..n];
      ReopenPath(k, open, into, m, rest[..n]);
      assert Ats(k, rest) == Ats(k, rest[..n]) + [At(k, rest[n])];
    }
  }

  lemma {:induction false} RenPath(sh: Shift, f: Forest)
    ensures Path(RenForest(sh, f)) == RenIds(sh, Path(f))
    decreases f
  {
    if f != [] {
      var n := |f| - 1;
      assert f == f[..n] + [f[n]];
      RenConcat(sh, f[..n], [f[n]]);
      var last := RenForest(sh, [f[n]]);
      assert [f[n]][1..] == [];
      assert RenForest(sh, f)[n] == last[0];
      if f[n].S? { RenPath(sh, f[n].kids); }
    }
  }

  /**
   * The depth of the open section the part's path goes on from, or 0 for the root, and what the
   * path holds below it: the shallowest content added.
   */
  ghost predicate Turns(f: Forest, s: Shape, depth: nat, m: nat, t: nat, below: Forest)
    requires s.Run? || s.Moved? ==> depth > 0
    requires s.Chain? ==> s.n <= depth
    requires s.Run? ==> s.n <= |f|
  {
    && t <= depth && m <= SecDrop(s)
    && Path(f) == Range(1, m) + Path(below)
    && Adds(f, s, depth)[t] == below && below != []
    && (forall j :: 0 <= j < t ==> Adds(f, s, depth)[j] == [])
    && (m == 0 ==> t == 0)
    && (m > 0 ==> t == Into(s, depth)[m - 1])
  }

  lemma TurnAt(p: Part, f: Forest, s: Shape, depth: nat) returns (m: nat, t: nat, below: Forest)
    requires Fits(p, s, depth, f) && !s.Moved? && f != []
    ensures Turns(f, s, depth, m, t, below)
  {
    if s.Chain? {
      m, t, below := ChainTurn(p, f, s.n, s.content, depth);
    } else {
      m, t := 0, 0;
      below := if s.Run? then f[s.n..] else f;
      assert below[|below| - 1] == f[|f| - 1];
      assert Range(1, 0) + Path(below) == Path(f);
    }
  }

  lemma ChainTurn(p: Part, f: Forest, n: nat, content: bool, depth: nat) returns (m: nat, t: nat, below: Forest)
    requires Fits(p, Chain(n, content), depth, f)
    ensures Turns(f, Chain(n, content), depth, m, t, below)
  {
    var r := Peel(f, n);
    m := ChainPath(f, 1, n);
    below := r[m];
    t := if m == n && content then depth else m;
    var a := Adds(f, Chain(n, content), depth);
    forall j | 0 <= j < t ensures a[j] == [] {
      if j < n { assert a[j] == r[j]; }
    }
  }

  /** Sections below the kept part of a tree are kept ones. */
  lemma BelowKept(f: Forest, s: Shape, depth: nat, secs: seq<Section>, t: nat, x: nat)
    requires s.Run? || s.Moved? ==> depth > 0
    requires s.Chain? ==> s.n <= depth && Opens(f, 1, s.n) && s.n < |secs|
    requires s.Run? ==> s.n <= |f|
    requires Tree(secs, f) && t <= depth && x in Path(Adds(f, s, depth)[t])
    ensures SecDrop(s) < x < |secs|
  {
    var adds := Adds(f, s, depth);
    FlatAdds(f, s, depth);
    PathIds(adds[t]);
    FlatIds(adds, t);
    KeptNumbers(Ids(f), SecDrop(s), Ids(Flat(adds)), |secs|);
  }

  lemma StillExtensible(t: seq<Section>, open: seq<nat>, p: Part, s: Shape, sh: Shift, x: nat)
    requires sh.prevEnd <= sh.start && p.sections != [] && 0 < x < |t| && Extensible(t[x])
    ensures Extensible(AddPart(t, open, p, s, sh)[x])
  {
    assert AddPart(t, open, p, s, sh)[x] == GrowAt(t, open, p, s, sh, x);
  }

  lemma OldStayOpen(t: seq<Section>, open: seq<nat>, m: Forest, p: Part, s: Shape, sh: Shift)
    requires sh.prevEnd <= sh.start && p.sections != [] && Tree(t, m) && OpenIn(t, m, open)
    ensures forall d :: 0 <= d < |open| ==> open[d] < |t| && Extensible(AddPart(t, open, p, s, sh)[open[d]])
  {
    PathIds(m);
    forall d | 0 <= d < |open| ensures open[d] < |t| && Extensible(AddPart(t, open, p, s, sh)[open[d]]) {
      assert open[d] == Path(m)[d] && open[d] in Ids(m);
      StillExtensible(t, open, p, s, sh, open[d]);
    }
  }

  /** Open sections of earlier parts, then sections the part keeps. */
  lemma NewOpen(parts: seq<Part>, shapes: seq<Shape>, ats: seq<At>, sh: Shift, d: nat, rest: seq<nat>)
    requires sh.k < |parts| && sh.k < |shapes| && Placed(parts, shapes, ats) && d <= |ats|
    requires sh.secDrop == SecDrop(shapes[sh.k]) && SecsTo(parts, shapes, sh.k) == sh.secBase
    ensures Placed(parts, shapes, ats[..d] + Ats(sh.k, rest))
    ensures WhereAll(parts, shapes, ats[..d] + Ats(sh.k, rest)) == WhereAll(parts, shapes, ats)[..d] + RenIds(sh, rest)
  {
    hide *;
    WhereFront(parts, shapes, ats, d);
    WhereOwn(parts, shapes, sh, rest);
    WhereJoin(parts, shapes, ats[..d], Ats(sh.k, rest));
  }

  lemma WhereFront(parts: seq<Part>, shapes: seq<Shape>, ats: seq<At>, d: nat)
    requires Placed(parts, shapes, ats) && d <= |ats|
    ensures Placed(parts, shapes, ats[..d]) && WhereAll(parts, shapes, ats[..d]) == WhereAll(parts, shapes, ats)[..d]
  {
    hide Where;
  }

  lemma WhereOwn(parts: seq<Part>, shapes: seq<Shape>, sh: Shift, rest: seq<nat>)
    requires sh.k < |parts| && sh.k < |shapes|
    requires sh.secDrop == SecDrop(shapes[sh.k]) && SecsTo(parts, shapes, sh.k) == sh.secBase
    ensures Placed(parts, shapes, Ats(sh.k, rest)) && WhereAll(parts, shapes, Ats(sh.k, rest)) == RenIds(sh, rest)
  {
    forall i: nat ensures Where(parts, shapes, At(sh.k, i)) == RenSec(sh, i) { WhereNew(parts, shapes, sh, i); }
    hide Where, RenSec, SecsTo;
  }

  lemma WhereJoin(parts: seq<Part>, shapes: seq<Shape>, a: seq<At>, b: seq<At>)
    requires Placed(parts, shapes, a) && Placed(parts, shapes, b)
    ensures Placed(parts, shapes, a + b)
    ensures WhereAll(parts, shapes, a + b) == WhereAll(parts, shapes, a) + WhereAll(parts, shapes, b)
  {
    hide Where;
  }

  lemma WhereNew(parts: seq<Part>, shapes: seq<Shape>, sh: Shift, i: nat)
    requires sh.k < |parts| && sh.k < |shapes|
    requires sh.secDrop == SecDrop(shapes[sh.k]) && SecsTo(parts, shapes, sh.k) == sh.secBase
    ensures Where(parts, shapes, At(sh.k, i)) == RenSec(sh, i)
  {
    hide CharTo, BasesTo;
  }

  lemma KeptExtensible(t: seq<Section>, open: seq<nat>, p: Part, s: Shape, sh: Shift, rest: seq<nat>)
    requires sh.prevEnd <= sh.start && sh.secBase == |t| && sh.secDrop == SecDrop(s) && p.sections != []
    requires forall x :: x in rest ==> SecDrop(s) < x < |p.sections| && Extensible(p.sections[x])
    ensures forall j :: 0 <= j < |rest| ==>
              RenIds(sh, rest)[j] < |AddPart(t, open, p, s, sh)|
                  && Extensible(AddPart(t, open, p, s, sh)[RenIds(sh, rest)[j]])
  {
    forall j | 0 <= j < |rest|
      ensures RenIds(sh, rest)[j] < |AddPart(t, open, p, s, sh)|
      ensures Extensible(AddPart(t, open, p, s, sh)[RenIds(sh, rest)[j]])
    {
      assert rest[j] in rest;
      AddedNew(t, open, p, s, sh, rest[j]);
    }
  }

  /**
   * What the plan keeps open after a part: the first d sections open before it, then sections of
   * its own, and below that depth the content it adds ends in nothing deeper but these.
   */
  lemma NextOpenPath(p: Part, k: nat, ats: seq<At>, f: Forest, s: Shape, m: Forest, sh: Shift)
    returns (d: nat, rest: seq<nat>)
    requires Tree(p.sections, f) && PathExtensible(p, f) && Fits(p, s, |ats|, f)
    requires |ats| <= |Path(m)| && sh.secDrop == SecDrop(s)
    ensures d <= |ats| && NextOpen(p, k, ats, s) == ats[..d] + Ats(k, rest)
    ensures forall x :: x in rest ==> SecDrop(s) < x < |p.sections| && Extensible(p.sections[x])
    ensures Path(m)[..d] + RenIds(sh, rest) <= Path(Joined(m, f, s, |ats|, sh))
    ensures !s.Moved? && f != [] ==> |NextOpen(p, k, ats, s)| == |Path(Joined(m, f, s, |ats|, sh))|
  {
    hide *;
    FitsBounds(p, s, |ats|, f);
    FullPath(p, f);
    PartParts(p, f);
    if s.Moved? {
      d, rest := |ats|, [];
      MovedPath(p, k, ats, f, s, m, sh);
    } else if f == [] {
      d, rest := |ats|, [];
      NothingPath(p, k, ats, f, s, m, sh);
    } else {
      d, rest := NextOpenTurn(p, k, ats, f, s, m, sh);
      forall x | x in rest ensures Extensible(p.sections[x]) { OnPath(p, f, x); }
    }
  }

  lemma PartParts(p: Part, f: Forest)
    requires Tree(p.sections, f)
    ensures p.sections != [] && Reps(p.sections, f) && Top(f) == RootElems(p)
  {}

  lemma FullPath(p: Part, f: Forest)
    requires Tree(p.sections, f) && PathExtensible(p, f)
    ensures OpenPath(p) == Path(f)
  {
    assert [] + Ids(f) == Ids(f) && [] + Path(f) == Path(f);
    WalkPath(p, f, [], |p.sections|);
  }

  lemma OnPath(p: Part, f: Forest, x: nat)
    requires PathExtensible(p, f) && x in Path(f)
    ensures x < |p.sections| && Extensible(p.sections[x])
  {}

  lemma MovedPath(p: Part, k: nat, ats: seq<At>, f: Forest, s: Shape, m: Forest, sh: Shift)
    requires Fits(p, s, |ats|, f) && |ats| <= |Path(m)| && s.Moved?
    ensures NextOpen(p, k, ats, s) == ats[..|ats|] + Ats(k, [])
    ensures Path(m)[..|ats|] + RenIds(sh, []) <= Path(Joined(m, f, s, |ats|, sh))
  {
    ExtendedPath(m, RenAdds(sh, Adds(f, s, |ats|)), |ats|);
    assert ats[..|ats|] + Ats(k, []) == ats;
    hide RenAdds, Adds;
  }

  lemma NothingPath(p: Part, k: nat, ats: seq<At>, f: Forest, s: Shape, m: Forest, sh: Shift)
    requires Fits(p, s, |ats|, f) && |ats| <= |Path(m)| && !s.Moved? && f == [] && OpenPath(p) == Path(f)
    requires Top(f) == RootElems(p)
    ensures NextOpen(p, k, ats, s) == ats[..|ats|] + Ats(k, [])
    ensures Path(m)[..|ats|] + RenIds(sh, []) <= Path(Joined(m, f, s, |ats|, sh))
  {
    ExtendedByNothing(m, RenAdds(sh, Adds(f, s, |ats|)));
    assert ats[..|ats|] + Ats(k, []) == ats;
  }

  lemma NextOpenTurn(p: Part, k: nat, ats: seq<At>, f: Forest, s: Shape, m: Forest, sh: Shift)
    returns (d: nat, rest: seq<nat>)
    requires Tree(p.sections, f) && Fits(p, s, |ats|, f) && OpenPath(p) == Path(f)
    requires |ats| <= |Path(m)| && sh.secDrop == SecDrop(s) && !s.Moved? && f != []
    ensures d <= |ats| && NextOpen(p, k, ats, s) == ats[..d] + Ats(k, rest)
    ensures forall x :: x in rest ==> SecDrop(s) < x < |p.sections| && x in Path(f)
    ensures Path(m)[..d] + RenIds(sh, rest) <= Path(Joined(m, f, s, |ats|, sh))
    ensures |NextOpen(p, k, ats, s)| == |Path(Joined(m, f, s, |ats|, sh))|
  {
    hide *;
    var depth := |ats|;
    FitsBounds(p, s, depth, f);
    var pieces := Adds(f, s, depth);
    var c, t, below := TurnAt(p, f, s, depth);
    TurnsParts(f, s, depth, c, t, below);
    RenNothing(sh, pieces, t);
    ExtendedPath(m, RenAdds(sh, pieces), t);
    JoinedIs(m, f, s, depth, sh);
    RenPath(sh, below);
    forall x | x in Path(below) ensures SecDrop(s) < x < |p.sections| {
      BelowKept(f, s, depth, p.sections, t, x);
    }
    if Path(f) == [] {
      d, rest := 0, [];
      NothingOpen(p, k, ats, f, s);
      NothingAfter(ats, k, sh, Path(m), Path(RenForest(sh, below)), c, Path(below));
    } else {
      d, rest := t, Path(below);
      IntoAll(s, depth);
      ReopenPath(k, ats, Into(s, depth), c, rest);
      NextOpenIs(p, k, ats, s);
      AfterTurn(ats, k, c, t, rest, Into(s, depth));
    }
  }

  lemma TurnsParts(f: Forest, s: Shape, depth: nat, m: nat, t: nat, below: Forest)
    requires s.Run? || s.Moved? ==> depth > 0
    requires s.Chain? ==> s.n <= depth
    requires s.Run? ==> s.n <= |f|
    requires Turns(f, s, depth, m, t, below)
    ensures t <= depth && m <= SecDrop(s) && Path(f) == Range(1, m) + Path(below)
    ensures Adds(f, s, depth)[t] == below && below != [] && (forall j :: 0 <= j < t ==> Adds(f, s, depth)[j] == [])
    ensures (m == 0 ==> t == 0) && (m > 0 ==> t == Into(s, depth)[m - 1])
    ensures forall x :: x in Path(below) ==> x in Path(f)
  {}

  lemma RenNothing(sh: Shift, pieces: seq<Forest>, t: nat)
    requires t < |pieces| && pieces[t] != [] && forall j :: 0 <= j < t ==> pieces[j] == []
    ensures var adds := RenAdds(sh, pieces);
            adds[t] == RenForest(sh, pieces[t]) && adds[t] != [] && forall j :: 0 <= j < t ==> adds[j] == []
  {}

  lemma JoinedIs(m: Forest, f: Forest, s: Shape, depth: nat, sh: Shift)
    requires (s.Run? || s.Moved? ==> depth > 0) && (s.Chain? ==> s.n <= depth) && (s.Run? ==> s.n <= |f|)
    requires depth <= |Path(m)|
    ensures Joined(m, f, s, depth, sh) == Extend(m, RenAdds(sh, Adds(f, s, depth)))
  {}

  lemma IntoAll(s: Shape, depth: nat)
    requires s.Chain? ==> s.n <= depth
    ensures |Into(s, depth)| == SecDrop(s) && forall j :: 0 <= j < SecDrop(s) ==> Into(s, depth)[j] <= depth
  {}

  lemma NextOpenIs(p: Part, k: nat, ats: seq<At>, s: Shape)
    requires (s.Chain? ==> s.n <= |ats|) && !s.Moved? && OpenPath(p) != []
    ensures forall x :: x in OpenPath(p) ==> x >= 1
    ensures forall j :: 0 <= j < SecDrop(s) ==> Into(s, |ats|)[j] <= |ats|
    ensures NextOpen(p, k, ats, s) == Reopen(k, ats, Into(s, |ats|), OpenPath(p))
  {}

  lemma NothingAfter(ats: seq<At>, k: nat, sh: Shift, path: seq<nat>, added: seq<nat>, c: nat, below: seq<nat>)
    requires Range(1, c) + below == [] && added == RenIds(sh, below)
    ensures ats[..0] + Ats(k, []) == [] && path[..0] + RenIds(sh, []) == []
    ensures added == [] && c == 0 && path[..0] + added == []
  {
    assert |Range(1, c)| == c;
  }

  lemma AfterTurn(ats: seq<At>, k: nat, c: nat, t: nat, rest: seq<nat>, into: seq<nat>)
    requires t <= |ats| && c <= |into| && (c == 0 ==> t == 0) && (c > 0 ==> t == into[c - 1] <= |ats|)
    ensures (if c == 0 then [] else ats[..into[c - 1]]) == ats[..t] && |ats[..t] + Ats(k, rest)| == t + |rest|
  {
    assert ats[..0] == [];
  }

  lemma NothingOpen(p: Part, k: nat, ats: seq<At>, f: Forest, s: Shape)
    requires Tree(p.sections, f) && Fits(p, s, |ats|, f) && OpenPath(p) == Path(f)
    requires Path(f) == [] && !s.Moved? && f != []
    ensures NextOpen(p, k, ats, s) == ats[..0] + Ats(k, [])
  {
    assert ats[..0] + Ats(k, []) == [];
    assert s.Chain? ==> f[0].S?;
    assert |f| > RootDrop(s);
  }

  /** The sections the plan keeps open after a part are where the merged tree then ends. */
  lemma NextOpenIn(
      parts: seq<Part>, shapes: seq<Shape>, t: seq<Section>, ats: seq<At>, m: Forest, f: Forest, sh: Shift)
    requires sh.k < |parts| && sh.k < |shapes| && sh.secBase == |t| && sh.prevEnd <= sh.start
    requires sh.secDrop == SecDrop(shapes[sh.k]) && SecsTo(parts, shapes, sh.k) == |t|
    requires Placed(parts, shapes, ats) && OpenIn(t, m, WhereAll(parts, shapes, ats)) && Tree(t, m)
    requires Tree(parts[sh.k].sections, f) && PathExtensible(parts[sh.k], f)
    requires Fits(parts[sh.k], shapes[sh.k], |ats|, f)
    ensures var p, s := parts[sh.k], shapes[sh.k];
            var next := NextOpen(p, sh.k, ats, s);
            && Placed(parts, shapes, next)
            && OpenIn(AddPart(t, WhereAll(parts, shapes, ats), p, s, sh), Joined(m, f, s, |ats|, sh),
                      WhereAll(parts, shapes, next))
            && (!s.Moved? && f != [] ==> |next| == |Path(Joined(m, f, s, |ats|, sh))|)
  {
    var p, s := parts[sh.k], shapes[sh.k];
    hide *;
    var open := WhereAll(parts, shapes, ats);
    OpenParts(t, m, open);
    TreeSize(p.sections, f);
    var d, rest := NextOpenPath(p, sh.k, ats, f, s, m, sh);
    NewOpen(parts, shapes, ats, sh, d, rest);
    OldStayOpen(t, open, m, p, s, sh);
    KeptExtensible(t, open, p, s, sh, rest);
    FrontOf(open, Path(m), d);
    FrontOpen(AddPart(t, open, p, s, sh), open, d);
    PrefixOpen(AddPart(t, open, p, s, sh), Joined(m, f, s, |ats|, sh), open[..d], RenIds(sh, rest));
  }

  lemma FrontOf(open: seq<nat>, path: seq<nat>, d: nat)
    requires |open| <= |path| && open == path[..|open|] && d <= |open|
    ensures open[..d] == path[..d]
  {}

  lemma FrontOpen(t: seq<Section>, open: seq<nat>, d: nat)
    requires d <= |open| && forall j :: 0 <= j < |open| ==> open[j] < |t| && Extensible(t[open[j]])
    ensures forall j :: 0 <= j < |open[..d]| ==> open[..d][j] < |t| && Extensible(t[open[..d][j]])
  {}

  lemma TreeSize(t: seq<Section>, f: Forest)
    requires Tree(t, f)
    ensures t != []
  {}

  lemma PrefixOpen(t: seq<Section>, m: Forest, a: seq<nat>, b: seq<nat>)
    requires a + b <= Path(m)
    requires forall j :: 0 <= j < |a| ==> a[j] < |t| && Extensible(t[a[j]])
    requires forall j :: 0 <= j < |b| ==> b[j] < |t| && Extensible(t[b[j]])
    ensures OpenIn(t, m, a + b)
  {}
}
