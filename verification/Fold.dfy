/** One part's tree, taken apart along the sections its leading content continues. */
module Fold {
  import opened Sections
  import opened Forest
  import opened Lead
  import opened Renumber

  /** The forest's first item is section i, that one's first item section i + 1, n of them in all. */
  ghost predicate Opens(f: Forest, i: nat, n: nat)
    decreases n
  {
    n == 0 || (f != [] && f[0].S? && f[0].i == i && Opens(f[0].kids, i + 1, n - 1))
  }

  /** What is left at each level when the first n sections are opened up, the innermost content last. */
  function Peel(f: Forest, n: nat): (r: seq<Forest>)
    ensures |r| == n + 1
    decreases n
  {
    if n == 0 then [f]
    else if f == [] || f[0].L? then [f] + Peel([], n - 1)
    else [f[1..]] + Peel(f[0].kids, n - 1)
  }

  function Pad(n: nat): (r: seq<Forest>)
    ensures |r| == n
    ensures forall k :: 0 <= k < n ==> r[k] == []
  {
    seq(n, _ => [])
  }

  /** The part's content by the depth of the section it goes to, 0 for the root. */
  function Adds(f: Forest, s: Shape, depth: nat): (r: seq<Forest>)
    requires s.Run? || s.Moved? ==> depth > 0
    requires s.Chain? ==> s.n <= depth
    requires s.Run? ==> s.n <= |f|
    ensures |r| == depth + 1
  {
    match s
    case Apart => [f] + Pad(depth)
    case Moved => Pad(depth) + [f]
    case Run(n, _) => [f[n..]] + Pad(depth - 1) + [f[..n]]
    case Chain(n, content) =>
      if content then Peel(f, n)[..n] + Pad(depth - n) + [Peel(f, n)[n]]
      else Peel(f, n) + Pad(depth - n)
  }

  function Range(i: nat, n: nat): (r: seq<nat>)
    ensures |r| == n
    ensures forall k :: 0 <= k < n ==> r[k] == i + k
  {
    seq(n, k => i + k)
  }

  lemma {:induction false} Peeled(f: Forest, i: nat, n: nat)
    requires Opens(f, i, n)
    ensures Leaves(Flat(Peel(f, n))) == Leaves(f)
    ensures Ids(f) == Range(i, n) + Ids(Flat(Peel(f, n)))
    decreases n
  {
    var r := Peel(f, n);
    if n == 0 {
      assert Flat(r) == Flat(r[1..]) + f && r[1..] == [];
      assert Flat(r) == f;
    } else {
      var kids := f[0].kids;
      Peeled(kids, i + 1, n - 1);
      var inner := Flat(Peel(kids, n - 1));
      assert r[1..] == Peel(kids, n - 1);
      Concat(inner, f[1..]);
      assert Range(i, n) == [i] + Range(i + 1, n - 1);
      Associate([i], Range(i + 1, n - 1), Ids(inner));
      Associate([i] + Range(i + 1, n - 1), Ids(inner), Ids(f[1..]));
    }
  }

  lemma {:induction false} FlatPad(n: nat)
    ensures Flat(Pad(n)) == []
    decreases n
  {
    if n > 0 {
      assert Pad(n)[1..] == Pad(n - 1);
      FlatPad(n - 1);
    }
  }

  lemma FlatThree(a: seq<Forest>, n: nat, b: seq<Forest>)
    ensures Flat(a + Pad(n) + b) == Flat(b) + Flat(a)
  {
    FlatConcat(a + Pad(n), b);
    FlatConcat(a, Pad(n));
    FlatPad(n);
    assert [] + Flat(a) == Flat(a);
  }

  lemma FlatOne(f: Forest)
    ensures Flat([f]) == f
  {
    assert [f][1..] == [];
    assert Flat([]) + f == f;
  }

  lemma FlatChain(f: Forest, n: nat, content: bool, depth: nat)
    requires n <= depth
    ensures Flat(Adds(f, Chain(n, content), depth)) == Flat(Peel(f, n))
  {
    var r := Peel(f, n);
    if content {
      FlatThree(r[..n], depth - n, [r[n]]);
      FlatConcat(r[..n], [r[n]]);
      assert r == r[..n] + [r[n]];
    } else {
      FlatThree(r, depth - n, []);
      assert r + Pad(depth - n) + [] == r + Pad(depth - n);
    }
  }

  lemma FlatOthers(f: Forest, s: Shape, depth: nat)
    requires !s.Chain? && (s.Run? || s.Moved? ==> depth > 0) && (s.Run? ==> s.n <= |f|)
    ensures Flat(Adds(f, s, depth)) == f
  {
    match s
    case Apart =>
      FlatThree([f], depth, []);
      FlatOne(f);
      assert [f] + Pad(depth) + [] == [f] + Pad(depth);
    case Moved =>
      FlatThree([], depth, [f]);
      FlatOne(f);
      assert [] + Pad(depth) + [f] == Pad(depth) + [f];
    case Run(n, _) =>
      FlatThree([f[n..]], depth - 1, [f[..n]]);
      FlatOne(f[n..]);
      FlatOne(f[..n]);
      assert f == f[..n] + f[n..];
  }

  /** Taken apart and put back in document order, the content is the part's own. */
  lemma FlatAdds(f: Forest, s: Shape, depth: nat)
    requires s.Run? || s.Moved? ==> depth > 0
    requires s.Chain? ==> s.n <= depth && Opens(f, 1, s.n)
    requires s.Run? ==> s.n <= |f|
    ensures Leaves(Flat(Adds(f, s, depth))) == Leaves(f)
    ensures Ids(f) == Range(1, SecDrop(s)) + Ids(Flat(Adds(f, s, depth)))
  {
    if s.Chain? {
      Peeled(f, 1, s.n);
      FlatChain(f, s.n, s.content, depth);
    } else {
      FlatOthers(f, s, depth);
      assert Range(1, 0) == [];
    }
  }

  lemma {:induction false} PeelReps(secs: seq<Section>, f: Forest, i: nat, n: nat, t: nat)
    requires Reps(secs, f) && Opens(f, i, n) && t <= n
    ensures Reps(secs, Peel(f, n)[t])
    decreases n
  {
    if n > 0 && t > 0 {
      PeelReps(secs, f[0].kids, i + 1, n - 1, t - 1);
      assert Peel(f, n)[t] == Peel(f[0].kids, n - 1)[t - 1];
    }
  }

  /** Each level's pointers are those of the section opened up there, less the pointer to the next. */
  lemma {:induction false} PeelTop(secs: seq<Section>, f: Forest, i: nat, n: nat, t: nat)
    requires Reps(secs, f) && Opens(f, i, n) && 0 < t <= n
    ensures i + t - 1 < |secs|
    ensures t < n ==> Elems(secs[i + t - 1]) != [] && Top(Peel(f, n)[t]) == Elems(secs[i + t - 1])[1..]
    ensures t == n ==> Top(Peel(f, n)[t]) == Elems(secs[i + t - 1])
    decreases n
  {
    var kids := f[0].kids;
    assert Peel(f, n)[t] == Peel(kids, n - 1)[t - 1];
    assert Elems(secs[i]) == Top(kids);
    if t == 1 {
      if n > 1 { assert Peel(kids, n - 1)[0] == kids[1..] && Top(kids)[1..] == Top(kids[1..]); }
    } else {
      PeelTop(secs, kids, i + 1, n - 1, t - 1);
    }
  }

  /** The elements the section at depth d of the path takes; the root keeps those at depth 0. */
  function ShareElems(p: Part, s: Shape, depth: nat, d: nat): seq<Elem>
  {
    var root := RootElems(p);
    match s
    case Apart => if d == 0 then root else []
    case Moved => if d == depth then root else []
    case Run(n, _) =>
      if n > |root| then [] else if d == 0 then root[n..] else if d == depth then root[..n] else []
    case Chain(n, content) =>
      if d < n then
        var es := if d == 0 then root else if d < |p.sections| then Elems(p.sections[d]) else [];
        if es == [] then [] else es[1..]
      else if n < |p.sections| && d == (if content then depth else n) then Elems(p.sections[n])
      else []
  }

  /** The spans the open section at depth d takes, d > 0. */
  function ShareSpans(p: Part, s: Shape, d: nat): seq<Span>
  {
    match s
    case Apart => []
    case Moved => RootSpans(p)
    case Run(_, spans) => spans
    case Chain(n, content) =>
      var i := if d < n then d else n;
      if i < |p.sections| && (d <= n || content) then Spans(p.sections[i]) else []
  }

  lemma AddsTop(p: Part, f: Forest, s: Shape, depth: nat, d: nat)
    requires s.Run? || s.Moved? ==> depth > 0
    requires s.Chain? ==> 0 < s.n <= depth && Opens(f, 1, s.n)
    requires s.Run? ==> s.n <= |f|
    requires p.sections != [] && Reps(p.sections, f) && Top(f) == RootElems(p) && d <= depth
    ensures Top(Adds(f, s, depth)[d]) == ShareElems(p, s, depth, d)
    ensures Reps(p.sections, Adds(f, s, depth)[d])
  {
    if s.Chain? {
      ChainTop(p, f, s.n, s.content, depth, d);
    } else if s.Run? {
      RunTop(p, f, s, depth, d);
    }
  }

  lemma RunTop(p: Part, f: Forest, s: Shape, depth: nat, d: nat)
    requires s.Run? && depth > 0 && s.n <= |f| && d <= depth
    requires p.sections != [] && Reps(p.sections, f) && Top(f) == RootElems(p)
    ensures Top(Adds(f, s, depth)[d]) == ShareElems(p, s, depth, d)
    ensures Reps(p.sections, Adds(f, s, depth)[d])
  {
    var n := s.n;
    assert f == f[..n] + f[n..];
    TopConcat(f[..n], f[n..]);
    RepsConcat(p.sections, f[..n], f[n..]);
    assert Top(f)[n..] == Top(f[n..]) && Top(f)[..n] == Top(f[..n]);
  }

  lemma ChainTop(p: Part, f: Forest, n: nat, content: bool, depth: nat, d: nat)
    requires 0 < n <= depth && Opens(f, 1, n)
    requires p.sections != [] && Reps(p.sections, f) && Top(f) == RootElems(p) && d <= depth
    ensures Top(Adds(f, Chain(n, content), depth)[d]) == ShareElems(p, Chain(n, content), depth, d)
    ensures Reps(p.sections, Adds(f, Chain(n, content), depth)[d])
  {
    var add := Adds(f, Chain(n, content), depth)[d];
    PeelTop(p.sections, f, 1, n, n);
    PeelReps(p.sections, f, 1, n, n);
    if d < n {
      assert add == Peel(f, n)[d];
      PeelReps(p.sections, f, 1, n, d);
      if d > 0 {
        PeelTop(p.sections, f, 1, n, d);
      } else {
        assert add == f[1..] && Top(f)[1..] == Top(f[1..]);
      }
    } else if d == (if content then depth else n) {
      assert add == Peel(f, n)[n];
    } else {
      assert add == [];
    }
  }

  /** A chain the plan finds is one the tree opens with. */
  lemma {:induction false} ChainOpens(p: Part, f: Forest, i: nat, depth: nat)
    requires 1 <= i <= depth + 1 && Reps(p.sections, f) && f != [] && f[0].S? && f[0].i == i
    requires ChainFrom(p, i, depth).Ok? && ChainFrom(p, i, depth).value.Chain?
    ensures var n := ChainFrom(p, i, depth).value.n;
            && i - 1 <= n
            && Opens(f, i, n + 1 - i)
            && (i <= n ==> Peel(f, n + 1 - i)[n + 1 - i] != [])
    decreases |p.sections| - i
  {
    hide Clip, Extent, Within;
    var n := ChainFrom(p, i, depth).value.n;
    var kids := f[0].kids;
    TopAt(kids);
    if n >= i {
      assert kids != [];
      if Elems(p.sections[i])[0].Sec? {
        ChainOpens(p, kids, i + 1, depth);
      }
      assert Peel(f, n + 1 - i) == [f[1..]] + Peel(kids, n - i);
      assert n == i ==> Peel(kids, 0) == [kids];
    }
  }

  /** Section j of a chain the plan finds can be extended, and its spans lie within the content. */
  lemma {:induction false} ChainExtensible(p: Part, i: nat, depth: nat, j: nat)
    requires 1 <= i <= depth + 1 && ChainFrom(p, i, depth).Ok? && ChainFrom(p, i, depth).value.Chain?
    requires i <= j <= ChainFrom(p, i, depth).value.n
    ensures j < |p.sections| && Extensible(p.sections[j]) && Within(Spans(p.sections[j]), p.length)
    decreases |p.sections| - i
  {
    if i < j { ChainExtensible(p, i + 1, depth, j); }
  }

  /** What a part's tree bears out about its shape. */
  ghost predicate Fits(p: Part, s: Shape, depth: nat, f: Forest) {
    && (s.Run? || s.Moved? ==> depth > 0)
    && (s.Chain? ==> 0 < s.n <= depth && s.n < |p.sections| && Opens(f, 1, s.n) && Peel(f, s.n)[s.n] != [])
    && (s.Run? ==> 0 <= s.n < |f|)
    && (s.Moved? ==> f != [] && Path(f) == [])
  }

  lemma FitsBounds(p: Part, s: Shape, depth: nat, f: Forest)
    requires Fits(p, s, depth, f)
    ensures (s.Run? || s.Moved? ==> depth > 0) && (s.Run? ==> s.n <= |f|)
    ensures s.Chain? ==> 0 < s.n <= depth && Opens(f, 1, s.n) && s.n < |p.sections|
  {}

  lemma ShapeFits(p: Part, k: nat, depth: nat, f: Forest)
    requires p.sections != [] && Reps(p.sections, f) && Top(f) == RootElems(p)
    requires ShapeOf(p, k, depth).Ok?
    ensures Fits(p, ShapeOf(p, k, depth).value, depth, f)
  {
    TopAt(f);
    var s := ShapeOf(p, k, depth).value;
    if s.Chain? {
      ChainOpens(p, f, 1, depth);
      ChainExtensible(p, 1, depth, s.n);
    } else if s.Moved? {
      assert Top(f)[|f| - 1].Leaf?;
    }
  }
}
